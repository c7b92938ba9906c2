/**
 * `FaceDetector`: configuration checks, the post-processing applied to
 * what the detection engine returns (size filter, then top-K by
 * confidence), and the `FaceDetectorUtils` helpers. The engine itself
 * (Haar cascade, DNN, non-maximum suppression) is an input.
 */
module FaceDetector {
  import opened Base
  import opened Detections

  datatype Method = HaarCascade | DnnCaffe | DnnTensorflow | DnnOnnx

  /** The fields of `FaceDetectorConfig` the core reads. */
  datatype DetectorConfig = DetectorConfig(
    detectionMethod: Method,
    scaleFactor: real,
    minNeighbors: int,
    minSize: int,
    maxSize: int,
    confidenceThreshold: real,
    nmsThreshold: real,
    enableNms: bool,
    maxFaces: int)

  /** `FaceDetectorConfig()`. */
  function DefaultConfig(): (c: DetectorConfig)
  {
    DetectorConfig(HaarCascade, 1.1, 3, 30, 300, 0.7, 0.4, true, 10)
  }

  /** Every setting within its documented interval. */
  predicate InRanges(c: DetectorConfig)
  {
    1.0 < c.scaleFactor <= 2.0
    && 1 <= c.minNeighbors <= 10
    && 10 <= c.minSize <= 500
    && c.minSize <= c.maxSize <= 1000
    && 0.0 <= c.confidenceThreshold <= 1.0
    && 0.0 <= c.nmsThreshold <= 1.0
  }

  /** `validateConfig`: the checks in the order they reject. */
  function ValidateConfig(c: DetectorConfig): (ok: bool)
    ensures ok <==> InRanges(c)
  {
    if c.scaleFactor <= 1.0 || c.scaleFactor > 2.0 then false
    else if c.minNeighbors < 1 || c.minNeighbors > 10 then false
    else if c.minSize < 10 || c.minSize > 500 then false
    else if c.maxSize < c.minSize || c.maxSize > 1000 then false
    else if c.confidenceThreshold < 0.0 || c.confidenceThreshold > 1.0 then false
    else if c.nmsThreshold < 0.0 || c.nmsThreshold > 1.0 then false
    else true
  }

  /** The default configuration passes its own check. */
  lemma DefaultConfigIsValid()
    ensures ValidateConfig(DefaultConfig())
    ensures DefaultConfig().minSize <= DefaultConfig().maxSize
  {
  }

  /** `validateImage`: a non-empty image with positive width and height. */
  predicate ValidImage(image: Size)
  {
    image.width > 0 && image.height > 0
  }

  // ---------------------------------------------------------------------
  // Post-processing

  /** A face is kept when its smaller side lies in [min_size, max_size]. */
  predicate KeepsSize(face: Detection, minSize: int, maxSize: int)
  {
    var side := Min(face.bbox.width, face.bbox.height);
    minSize <= side <= maxSize
  }

  function SizeRule(minSize: int, maxSize: int): Detection -> bool
  {
    face => KeepsSize(face, minSize, maxSize)
  }

  /**
   * `filterDetectionsBySize`: `remove_if` moves the kept faces to the
   * front in their order; `erase` then cuts the vector to `n`.
   */
  method FilterBySize(a: array<Detection>, minSize: int, maxSize: int) returns (n: nat)
    modifies a
    ensures n <= a.Length
    ensures a[..n] == Filter(old(a[..]), SizeRule(minSize, maxSize))
  {
    ghost var input := a[..];
    n := 0;
    var r := 0;
    while r < a.Length
      invariant n <= r <= a.Length
      invariant a[..n] == Filter(input[..r], SizeRule(minSize, maxSize))
      invariant a[r..] == input[r..]
    {
      var face := a[r];
      assert face == input[r];
      assert input[..r + 1][..r] == input[..r];
      if KeepsSize(face, minSize, maxSize) {
        a[n] := face;
        n := n + 1;
      }
      r := r + 1;
    }
    assert input[..a.Length] == input;
  }

  /** The size filter keeps exactly the faces of the right size, in their order. */
  lemma SizeFilterKeeps(faces: seq<Detection>, minSize: int, maxSize: int, f: Detection)
    ensures f in Filter(faces, SizeRule(minSize, maxSize))
            <==> f in faces && minSize <= Min(f.bbox.width, f.bbox.height) <= maxSize
    ensures IsSubsequence(Filter(faces, SizeRule(minSize, maxSize)), faces)
  {
    FilterMembers(faces, SizeRule(minSize, maxSize), f);
    FilterIsSubsequence(faces, SizeRule(minSize, maxSize));
  }

  /** How many faces `limitMaxDetections` keeps: a negative limit, cast to `size_t`, never limits. */
  function LimitedCount(count: nat, maxFaces: int): (n: nat)
    ensures n <= count
    ensures maxFaces >= 0 ==> n <= maxFaces
    ensures n == count || n == maxFaces
  {
    if maxFaces >= 0 && count > maxFaces then maxFaces else count
  }

  /**
   * `limitMaxDetections`: past `max_faces` faces, sort by confidence and
   * keep the first `max_faces`; otherwise change nothing.
   */
  method LimitMaxDetections(a: array<Detection>, maxFaces: int) returns (n: nat)
    modifies a
    ensures n == LimitedCount(a.Length, maxFaces)
    ensures n == a.Length ==> a[..] == old(a[..])
    ensures n < a.Length ==> SortedByConfidence(a[..]) && multiset(a[..]) == multiset(old(a[..]))
    ensures forall i, j :: 0 <= i < n <= j < a.Length ==> a[i].confidence >= a[j].confidence
  {
    if maxFaces >= 0 && a.Length > maxFaces {
      SortByConfidence(a);
      n := maxFaces;
    } else {
      n := a.Length;
    }
  }

  /**
   * What `limitMaxDetections` leaves of `sized`: everything when under the
   * limit; otherwise `max_faces` of them, sorted, the most confident ones.
   */
  predicate LimitedFrom(sized: seq<Detection>, maxFaces: int, faces: seq<Detection>)
  {
    |faces| == LimitedCount(|sized|, maxFaces)
    && (|faces| == |sized| ==> faces == sized)
    && (|faces| < |sized| ==> SortedByConfidence(faces))
    && multiset(faces) <= multiset(sized)
    && (forall x, k :: x in multiset(sized) - multiset(faces) && 0 <= k < |faces| ==> x.confidence <= faces[k].confidence)
  }

  /** What the post-processing promises: the faces of the right size, cut to the limit. */
  predicate Processed(engine: seq<Detection>, c: DetectorConfig, faces: seq<Detection>)
  {
    LimitedFrom(Filter(engine, SizeRule(c.minSize, c.maxSize)), c.maxFaces, faces)
  }

  lemma CutAfterLimit(sized: seq<Detection>, after: seq<Detection>, maxFaces: int, m: nat)
    requires |after| == |sized| && m == LimitedCount(|sized|, maxFaces)
    requires m == |sized| ==> after == sized
    requires m < |sized| ==> SortedByConfidence(after) && multiset(after) == multiset(sized)
    requires forall i, j :: 0 <= i < m <= j < |after| ==> after[i].confidence >= after[j].confidence
    ensures LimitedFrom(sized, maxFaces, after[..m])
  {
    var faces := after[..m];
    assert after == faces + after[m..];
    assert multiset(faces) <= multiset(after);
    if m < |sized| {
      assert forall i, j :: 0 <= i < j < |faces| ==> faces[i] == after[i] && faces[j] == after[j];
      DroppedRankLower(after, m);
    } else {
      assert faces == after;
    }
  }

  /** Cutting a list at `m` where the first `m` outrank the rest: whatever is dropped ranks below all that is kept. */
  lemma DroppedRankLower(after: seq<Detection>, m: nat)
    requires m <= |after|
    requires forall i, j :: 0 <= i < m <= j < |after| ==> after[i].confidence >= after[j].confidence
    ensures forall x, k :: x in multiset(after) - multiset(after[..m]) && 0 <= k < m ==> x.confidence <= after[..m][k].confidence
  {
    var faces := after[..m];
    assert after == faces + after[m..];
    assert multiset(after) - multiset(faces) == multiset(after[m..]);
    forall x, k | x in multiset(after) - multiset(faces) && 0 <= k < m
      ensures x.confidence <= faces[k].confidence
    {
      assert x in after[m..];
      var j :| 0 <= j < |after[m..]| && after[m..][j] == x;
      assert after[m + j] == x;
    }
  }

  /** The size filter and then the limit, on a copy of the engine's output. */
  method PostProcess(engine: seq<Detection>, c: DetectorConfig) returns (faces: seq<Detection>)
    ensures Processed(engine, c, faces)
  {
    var a := new Detection[|engine|](i requires 0 <= i < |engine| => engine[i]);
    assert a[..] == engine;
    var n := FilterBySize(a, c.minSize, c.maxSize);
    var sized := a[..n];
    var b := new Detection[n](i requires 0 <= i < n => sized[i]);
    assert b[..] == sized;
    var m := LimitMaxDetections(b, c.maxFaces);
    CutAfterLimit(sized, b[..], c.maxFaces, m);
    faces := b[..m];
  }

  // ---------------------------------------------------------------------
  // FaceDetectorUtils

  /** No box of `boxes` overlaps `d` by more than the threshold. */
  predicate ClearOf(boxes: seq<Detection>, d: Detection, threshold: real)
  {
    forall k :: 0 <= k < |boxes| ==> IoU(boxes[k].bbox, d.bbox) <= threshold
  }

  function ClearRule(boxes: seq<Detection>, threshold: real): Detection -> bool
  {
    d => ClearOf(boxes, d, threshold)
  }

  /** The inner loop of `mergeDetections`: does `candidate` overlap no box by more than the threshold? */
  method OverlapsNone(boxes: seq<Detection>, candidate: Detection, threshold: real) returns (clear: bool)
    ensures clear <==> ClearOf(boxes, candidate, threshold)
  {
    clear := true;
    var k := 0;
    while k < |boxes|
      invariant k <= |boxes|
      invariant clear <==> ClearOf(boxes[..k], candidate, threshold)
    {
      assert boxes[..k + 1][..k] == boxes[..k];
      if IoU(boxes[k].bbox, candidate.bbox) > threshold {
        clear := false;
        break;
      }
      k := k + 1;
    }
    if clear {
      assert boxes[..|boxes|] == boxes;
    }
  }

  /**
   * `mergeDetections`: all of `detections1`, then each detection of
   * `detections2` that overlaps none of `detections1` by more than the
   * threshold.
   */
  method MergeDetections(detections1: seq<Detection>, detections2: seq<Detection>, threshold: real)
    returns (merged: seq<Detection>)
    ensures merged == detections1 + Filter(detections2, ClearRule(detections1, threshold))
  {
    merged := detections1;
    var i := 0;
    while i < |detections2|
      invariant i <= |detections2|
      invariant merged == detections1 + Filter(detections2[..i], ClearRule(detections1, threshold))
    {
      var candidate := detections2[i];
      var shouldAdd := OverlapsNone(detections1, candidate, threshold);
      FilterStep(detections2, i, ClearRule(detections1, threshold));
      if shouldAdd {
        merged := merged + [candidate];
      }
      i := i + 1;
    }
    assert detections2[..|detections2|] == detections2;
  }

  /** What the merge adds: exactly the detections2 entries clear of every detections1 box, in order. */
  lemma MergeAdds(detections1: seq<Detection>, detections2: seq<Detection>, threshold: real, d: Detection)
    ensures d in Filter(detections2, ClearRule(detections1, threshold))
            <==> d in detections2 && forall e :: e in detections1 ==> IoU(e.bbox, d.bbox) <= threshold
    ensures IsSubsequence(Filter(detections2, ClearRule(detections1, threshold)), detections2)
  {
    FilterMembers(detections2, ClearRule(detections1, threshold), d);
    FilterIsSubsequence(detections2, ClearRule(detections1, threshold));
  }

  /** `isValidBoundingBox`: positive size and wholly inside the image. */
  predicate IsValidBoundingBox(b: Rect, image: Size)
  {
    b.x >= 0 && b.y >= 0 && b.x + b.width <= image.width && b.y + b.height <= image.height
    && b.width > 0 && b.height > 0
  }

  /** A valid box lies inside the image: its overlap with the image frame is the whole box. */
  lemma ValidBoxInsideImage(b: Rect, image: Size)
    requires IsValidBoundingBox(b, image)
    ensures var frame := Rect(0, 0, image.width, image.height);
      Overlap(b, frame) && Intersection(b, frame) == Area(b)
      && IoU(b, frame) == Area(b) as real / Area(frame) as real
  {
    var frame := Rect(0, 0, image.width, image.height);
    assert Max(b.x, 0) == b.x && Min(b.x + b.width, image.width) == b.x + b.width;
    assert Max(b.y, 0) == b.y && Min(b.y + b.height, image.height) == b.y + b.height;
    assert Intersection(b, frame) == Area(b);
  }

  /** The detector's palette: green, red, blue, yellow, cyan, magenta. */
  function DetectionColor(index: nat): (c: Color)
  {
    var colors := [Color(0, 255, 0), Color(0, 0, 255), Color(255, 0, 0),
                   Color(0, 255, 255), Color(255, 255, 0), Color(255, 0, 255)];
    colors[index % |colors|]
  }

  /** Colours repeat with period 6 and the first six are all different. */
  lemma DetectionColorCycles(index: nat)
    ensures DetectionColor(index) == DetectionColor(index % 6)
    ensures DetectionColor(index + 6) == DetectionColor(index)
    ensures forall i, j :: 0 <= i < j < 6 ==> DetectionColor(i) != DetectionColor(j)
  {
    assert (index + 6) % 6 == index % 6;
  }

  // ---------------------------------------------------------------------
  // The detector object

  class Detector {
    var config: DetectorConfig
    var initialized: bool
    var lastError: string
    var framesProcessed: nat
    var totalDetections: nat

    /** `FaceDetector(config)`: not initialized until `initialize` succeeds. */
    constructor(c: DetectorConfig)
      ensures config == c && !initialized && lastError == ""
      ensures framesProcessed == 0 && totalDetections == 0
    {
      config := c;
      initialized := false;
      lastError := "";
      framesProcessed := 0;
      totalDetections := 0;
    }

    /**
     * `initialize(config)`: the configuration is stored before it is
     * checked. `loadError` is what loading the cascade or network reports
     * (None when it loads).
     */
    method Initialize(c: DetectorConfig, loadError: Option<string>) returns (ok: bool)
      modifies this
      ensures config == c
      ensures ok <==> ValidateConfig(c) && loadError.None?
      ensures initialized == (ok || old(initialized))
      ensures !ValidateConfig(c) ==> lastError == "Invalid configuration"
      ensures ValidateConfig(c) && loadError.Some? ==> lastError == loadError.value
      ensures ok ==> lastError == old(lastError)
      ensures framesProcessed == old(framesProcessed) && totalDetections == old(totalDetections)
    {
      config := c;
      if !ValidateConfig(config) {
        lastError := "Invalid configuration";
        return false;
      }
      if loadError.Some? {
        lastError := loadError.value;
        return false;
      }
      initialized := true;
      ok := true;
    }

    /**
     * `detectFaces(image, faces)`: `engine` is what the cascade or network
     * returned, after non-maximum suppression when that is enabled. The
     * faces are filtered by size and then limited in number. `engineError`
     * is the message `detectWithHaarCascade` or `detectWithDNN` records
     * when its cascade or network is not loaded ("Haar cascade not loaded",
     * "DNN model not loaded"); it then returns no faces, and the call still
     * succeeds.
     */
    method DetectFaces(image: Size, engine: seq<Detection>, engineError: Option<string>)
      returns (ok: bool, faces: seq<Detection>)
      modifies this
      ensures config == old(config) && initialized == old(initialized)
      ensures !old(initialized) ==> !ok && faces == [] && lastError == "Detector not initialized"
      ensures old(initialized) && !ValidImage(image) ==>
                !ok && faces == [] && lastError == "Invalid input image"
      ensures ok <==> old(initialized) && ValidImage(image)
      ensures ok ==>
        Processed(if engineError.Some? then [] else engine, config, faces)
        && lastError == (if engineError.Some? then engineError.value else old(lastError))
        && framesProcessed == old(framesProcessed) + 1
        && totalDetections == old(totalDetections) + |faces|
      ensures ok && engineError.Some? ==> faces == []
      ensures !ok ==> framesProcessed == old(framesProcessed) && totalDetections == old(totalDetections)
    {
      if !initialized {
        lastError := "Detector not initialized";
        return false, [];
      }
      if !ValidImage(image) {
        lastError := "Invalid input image";
        return false, [];
      }
      var found := engine;
      if engineError.Some? {
        lastError := engineError.value;
        found := [];
      }
      faces := PostProcess(found, config);
      framesProcessed := framesProcessed + 1;
      totalDetections := totalDetections + |faces|;
      ok := true;
    }
  }
}
