/**
 * The chart detector of the parser service (`ChartDetector`): the layout
 * model's detections, kept when their class is a figure or a table, or the
 * edge-and-contour heuristic's rectangles, kept when their size, aspect and
 * share of the page are plausible; either way padded and clamped to the
 * page.  The foreign parts are inputs: a rendered page carries what the
 * layout model predicts on it (or the exception it raises) and the
 * bounding rectangles of the contours the heuristic's edge pipeline finds.
 */
module Detector {
  import opened Wrappers

  /** `config.DETECTION_PADDING` */
  const DetectionPadding := 60

  /** The heuristic's smallest width and height, and its largest aspect ratio. */
  const MinSide := 100
  const MaxAspect := 5

  /** A box `(x1, y1, x2, y2)` in pixels. */
  datatype Box = Box(x1: int, y1: int, x2: int, y2: int)

  /** One detection of the layout model: its box, already truncated by `int`, and its class id. */
  datatype Prediction = Prediction(box: Box, classId: int)

  /** `cv2.boundingRect` of one contour: corner, width and height. */
  datatype Rect = Rect(x: int, y: int, w: int, h: int)

  /** A rendered page as the detector's libraries see it. */
  datatype PageImage = PageImage(
    width: nat,
    height: nat,
    predicted: Result<seq<Prediction>, string>,
    contours: seq<Rect>)

  // ---------------------------------------------------- padding and clamping

  function Max(a: int, b: int): int { if a < b then b else a }
  function Min(a: int, b: int): int { if a < b then a else b }

  /** The box grown by the padding on every side and then cut to the `w` by `h` page. */
  function PadAndClamp(b: Box, w: nat, h: nat): (r: Box)
    ensures 0 <= r.x1 && 0 <= r.y1 && r.x2 <= w && r.y2 <= h
  {
    Box(Max(0, b.x1 - DetectionPadding), Max(0, b.y1 - DetectionPadding),
        Min(w, b.x2 + DetectionPadding), Min(h, b.y2 + DetectionPadding))
  }

  predicate InsidePage(b: Box, w: nat, h: nat) {
    0 <= b.x1 && 0 <= b.y1 && b.x2 <= w && b.y2 <= h
  }

  predicate Contains(outer: Box, inner: Box) {
    outer.x1 <= inner.x1 && outer.y1 <= inner.y1 && inner.x2 <= outer.x2 && inner.y2 <= outer.y2
  }

  /**
   * Padding never loses any of a box that lies on the page: the result lies
   * on the page and contains it, with up to the padding added on each side.
   */
  lemma PadKeepsBox(b: Box, w: nat, h: nat)
    requires InsidePage(b, w, h)
    ensures var r := PadAndClamp(b, w, h);
            && InsidePage(r, w, h) && Contains(r, b)
            && b.x1 - r.x1 <= DetectionPadding && b.y1 - r.y1 <= DetectionPadding
            && r.x2 - b.x2 <= DetectionPadding && r.y2 - b.y2 <= DetectionPadding
  {
  }

  // ----------------------------------------------------------- the ML path

  /** `label_map.get(class_id)` */
  function Label(classId: int): Option<string> {
    if classId == 0 then Some("Text")
    else if classId == 1 then Some("Title")
    else if classId == 2 then Some("List")
    else if classId == 3 then Some("Table")
    else if classId == 4 then Some("Figure")
    else if classId == 5 then Some("Other")
    else None
  }

  /** The class name is one of `target_classes`. */
  predicate IsTarget(classId: int) {
    Label(classId) == Some("Figure") || Label(classId) == Some("Table")
  }

  /** Of the six PubLayNet classes only the table (3) and the figure (4) are kept. */
  lemma TargetClasses(classId: int)
    ensures IsTarget(classId) <==> classId == 3 || classId == 4
  {
  }

  /** The boxes the ML loop appends for the predictions, in prediction order. */
  function MlBoxes(ps: seq<Prediction>, w: nat, h: nat): (bs: seq<Box>)
    ensures |bs| <= |ps|
    ensures forall k :: 0 <= k < |bs| ==> InsidePage(bs[k], w, h)
  {
    if ps == [] then []
    else
      MlBoxes(ps[..|ps| - 1], w, h) + MlKept(ps[|ps| - 1], w, h)
  }

  /** What the ML loop appends for one prediction. */
  function MlKept(p: Prediction, w: nat, h: nat): (bs: seq<Box>)
    ensures |bs| <= 1
    ensures forall k :: 0 <= k < |bs| ==> InsidePage(bs[k], w, h)
  {
    if IsTarget(p.classId) then [PadAndClamp(p.box, w, h)] else []
  }

  lemma {:induction false} MlBoxesAppend(ps: seq<Prediction>, qs: seq<Prediction>, w: nat, h: nat)
    ensures MlBoxes(ps + qs, w, h) == MlBoxes(ps, w, h) + MlBoxes(qs, w, h)
    decreases |qs|
  {
    if qs == [] {
      assert ps + qs == ps;
    } else {
      var qs', q := qs[..|qs| - 1], qs[|qs| - 1];
      MlBoxesAppend(ps, qs', w, h);
      assert (ps + qs)[..|ps + qs| - 1] == ps + qs' && (ps + qs)[|ps + qs| - 1] == q;
      assert MlBoxes(ps + qs, w, h) == MlBoxes(ps + qs', w, h) + MlKept(q, w, h);
      assert MlBoxes(qs, w, h) == MlBoxes(qs', w, h) + MlKept(q, w, h);
    }
  }

  /**
   * The ML path is a filter and a map: for any split of the predictions the
   * boxes are those of each part in turn, and one prediction gives its padded
   * box exactly when its class is a figure or a table.
   */
  lemma MlBoxesFilter(ps: seq<Prediction>, qs: seq<Prediction>, p: Prediction, w: nat, h: nat)
    ensures MlBoxes(ps + qs, w, h) == MlBoxes(ps, w, h) + MlBoxes(qs, w, h)
    ensures MlBoxes([p], w, h) == if IsTarget(p.classId) then [PadAndClamp(p.box, w, h)] else []
  {
    MlBoxesAppend(ps, qs, w, h);
    assert [p][..0] == [];
  }

  // ---------------------------------------------------------- the heuristic

  /**
   * The heuristic's filters, with the float ratios as cross-multiplications:
   * at least 100 pixels each way, no side more than five times the other,
   * and between 5% and 90% of the page's area.
   */
  predicate Plausible(r: Rect, w: nat, h: nat) {
    && r.w >= MinSide && r.h >= MinSide
    && r.w <= MaxAspect * r.h && r.h <= MaxAspect * r.w
    && 20 * (r.w * r.h) >= w * h
    && 10 * (r.w * r.h) <= 9 * (w * h)
  }

  function RectBox(r: Rect): Box {
    Box(r.x, r.y, r.x + r.w, r.y + r.h)
  }

  /** The boxes the heuristic loop appends for the rectangles, in contour order. */
  function HeuristicBoxes(rs: seq<Rect>, w: nat, h: nat): (bs: seq<Box>)
    ensures |bs| <= |rs|
    ensures forall k :: 0 <= k < |bs| ==> InsidePage(bs[k], w, h)
  {
    if rs == [] then []
    else
      HeuristicBoxes(rs[..|rs| - 1], w, h) + HeuristicKept(rs[|rs| - 1], w, h)
  }

  /** What the heuristic loop appends for one rectangle. */
  function HeuristicKept(r: Rect, w: nat, h: nat): (bs: seq<Box>)
    ensures |bs| <= 1
    ensures forall k :: 0 <= k < |bs| ==> InsidePage(bs[k], w, h)
  {
    if Plausible(r, w, h) then [PadAndClamp(RectBox(r), w, h)] else []
  }

  lemma {:induction false} HeuristicBoxesAppend(rs: seq<Rect>, qs: seq<Rect>, w: nat, h: nat)
    ensures HeuristicBoxes(rs + qs, w, h) == HeuristicBoxes(rs, w, h) + HeuristicBoxes(qs, w, h)
    decreases |qs|
  {
    if qs == [] {
      assert rs + qs == rs;
    } else {
      var qs', q := qs[..|qs| - 1], qs[|qs| - 1];
      HeuristicBoxesAppend(rs, qs', w, h);
      assert (rs + qs)[..|rs + qs| - 1] == rs + qs' && (rs + qs)[|rs + qs| - 1] == q;
      assert HeuristicBoxes(rs + qs, w, h) == HeuristicBoxes(rs + qs', w, h) + HeuristicKept(q, w, h);
      assert HeuristicBoxes(qs, w, h) == HeuristicBoxes(qs', w, h) + HeuristicKept(q, w, h);
    }
  }

  /**
   * The heuristic is a filter and a map: a rectangle under 100 pixels either
   * way, more than five times longer one way than the other, or covering
   * under 5% or over 90% of the page is dropped; any other gives its padded
   * box, and the boxes of a split contour list are those of each part in turn.
   */
  lemma HeuristicFilter(rs: seq<Rect>, qs: seq<Rect>, r: Rect, w: nat, h: nat)
    ensures HeuristicBoxes(rs + qs, w, h) == HeuristicBoxes(rs, w, h) + HeuristicBoxes(qs, w, h)
    ensures (r.w < MinSide || r.h < MinSide) ==> HeuristicBoxes([r], w, h) == []
    ensures (r.w > MaxAspect * r.h || r.h > MaxAspect * r.w) ==> HeuristicBoxes([r], w, h) == []
    ensures (20 * (r.w * r.h) < w * h || 10 * (r.w * r.h) > 9 * (w * h)) ==> HeuristicBoxes([r], w, h) == []
    ensures Plausible(r, w, h) ==> HeuristicBoxes([r], w, h) == [PadAndClamp(RectBox(r), w, h)]
  {
    HeuristicBoxesAppend(rs, qs, w, h);
    assert [r][..0] == [];
  }

  /** What `detect` returns: the ML path when the model is loaded (the heuristic if it raises), else the heuristic. */
  function Detection(loaded: bool, img: PageImage): (bs: seq<Box>)
    ensures forall k :: 0 <= k < |bs| ==> InsidePage(bs[k], img.width, img.height)
  {
    if loaded && img.predicted.Ok? then MlBoxes(img.predicted.value, img.width, img.height)
    else HeuristicBoxes(img.contours, img.width, img.height)
  }

  /** `"cuda"` when CUDA is available; otherwise `"cpu"`, on Apple's MPS as well. */
  function Device(cuda: bool): (d: string)
    ensures d == "cuda" <==> cuda
  {
    if cuda then "cuda" else "cpu"
  }

  /**
   * `ChartDetector`: whether the layout model is loaded, and the predictor
   * and device that loading set up.
   */
  class ChartDetector {
    var isLoaded: bool
    var predictor: Option<string>

    /** The predictor, recorded by the device it runs on, exists exactly while the model is loaded. */
    predicate Valid()
      reads this
    {
      isLoaded <==> predictor.Some?
    }

    constructor()
      ensures Valid() && !isLoaded
    {
      isLoaded := false;
      predictor := None;
    }

    /**
     * `load_model`, given whether Detectron2 could be imported, whether CUDA
     * is available, and whether configuring, fetching the weights and
     * building the predictor all succeeded.
     */
    method LoadModel(detectron2Available: bool, cuda: bool, succeeds: bool)
      requires Valid()
      modifies this
      ensures Valid()
      ensures old(isLoaded) || !detectron2Available ==> isLoaded == old(isLoaded) && predictor == old(predictor)
      ensures !old(isLoaded) && detectron2Available ==> (isLoaded <==> succeeds)
      ensures !old(isLoaded) && detectron2Available && succeeds ==> predictor == Some(Device(cuda))
    {
      if isLoaded || !detectron2Available {
        return;
      }
      var device := Device(cuda);
      if succeeds {
        predictor := Some(device);
        isLoaded := true;
      } else {
        isLoaded := false;
      }
    }

    /** `offload`: drops the predictor, whatever the state. */
    method Offload()
      modifies this
      ensures Valid() && !isLoaded && predictor.None?
    {
      predictor := None;
      isLoaded := false;
    }

    /** `detect`: the ML path when loaded, else the heuristic. */
    method Detect(img: PageImage) returns (boxes: seq<Box>)
      ensures boxes == Detection(isLoaded, img)
    {
      if isLoaded {
        boxes := DetectMl(img);
      } else {
        boxes := DetectHeuristic(img);
      }
    }
  }

  /** `_detect_ml`: the target-class predictions, padded; the heuristic's boxes if the model raised. */
  method DetectMl(img: PageImage) returns (detections: seq<Box>)
    ensures detections == Detection(true, img)
  {
    if img.predicted.Err? {
      detections := DetectHeuristic(img);
      return;
    }
    var ps := img.predicted.value;
    var w, h := img.width, img.height;
    detections := [];
    for i := 0 to |ps|
      invariant detections == MlBoxes(ps[..i], w, h)
    {
      assert ps[..i + 1][..i] == ps[..i];
      var p := ps[i];
      if Label(p.classId) == Some("Figure") || Label(p.classId) == Some("Table") {
        var b := p.box;
        var x1 := Max(0, b.x1 - DetectionPadding);
        var y1 := Max(0, b.y1 - DetectionPadding);
        var x2 := Min(w, b.x2 + DetectionPadding);
        var y2 := Min(h, b.y2 + DetectionPadding);
        detections := detections + [Box(x1, y1, x2, y2)];
      }
    }
    assert ps[..|ps|] == ps;
  }

  /** `_detect_cv_heuristic`: the plausible contour rectangles, padded. */
  method DetectHeuristic(img: PageImage) returns (bboxes: seq<Box>)
    ensures bboxes == HeuristicBoxes(img.contours, img.width, img.height)
  {
    var rs := img.contours;
    var w, h := img.width, img.height;
    bboxes := [];
    for i := 0 to |rs|
      invariant bboxes == HeuristicBoxes(rs[..i], w, h)
    {
      assert rs[..i + 1][..i] == rs[..i];
      var r := rs[i];
      if r.w < MinSide || r.h < MinSide {
        continue;
      }
      if r.w > MaxAspect * r.h || r.h > MaxAspect * r.w {
        continue;
      }
      if 20 * (r.w * r.h) < w * h || 10 * (r.w * r.h) > 9 * (w * h) {
        continue;
      }
      var x1 := Max(0, r.x - DetectionPadding);
      var y1 := Max(0, r.y - DetectionPadding);
      var x2 := Min(w, r.x + r.w + DetectionPadding);
      var y2 := Min(h, r.y + r.h + DetectionPadding);
      bboxes := bboxes + [Box(x1, y1, x2, y2)];
    }
    assert rs[..|rs|] == rs;
  }

  /**
   * Whatever path runs, every box lies on the page; a loaded model whose
   * prediction raised falls back to the heuristic, and an unloaded detector
   * never consults the model.
   */
  lemma DetectionFallsBack(loaded: bool, img: PageImage)
    ensures forall b :: b in Detection(loaded, img) ==> InsidePage(b, img.width, img.height)
    ensures !loaded || img.predicted.Err? ==> Detection(loaded, img) == HeuristicBoxes(img.contours, img.width, img.height)
    ensures loaded && img.predicted.Ok? ==> Detection(loaded, img) == MlBoxes(img.predicted.value, img.width, img.height)
  {
  }
}
