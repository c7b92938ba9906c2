/**
 * The demo's `FaceDetectionUtils` helpers: growing a box around its
 * centre and clamping it to the image, the demo's colour palette, and
 * greedy suppression of overlapping detections (highest confidence first).
 * `FaceDetectionUtils::calculateIoU` has the same body as the detector's
 * and is `Detections.IoU`.
 */
module FaceDetectionUtils {
  import opened Detections
  import FaceDetector

  /** `static_cast<int>` of a double: rounds toward zero. */
  function Trunc(r: real): (t: int)
    ensures r >= 0.0 ==> t as real <= r < t as real + 1.0
    ensures r < 0.0 ==> t as real - 1.0 < r <= t as real
  {
    if r >= 0.0 then r.Floor else -((-r).Floor)
  }

  /** C's `/` on `int`: the quotient rounds toward zero. */
  function CDiv(a: int, b: int): (q: int)
    requires b > 0
    ensures a >= 0 ==> q == a / b
    ensures a < 0 ==> q == -((-a) / b)
  {
    if a >= 0 then a / b else -((-a) / b)
  }

  /**
   * One axis of `expandRect`: the length grows to `Trunc(len * factor)`,
   * the start moves back by half the growth (C division), then the start
   * is clamped to 0 and the length to what is left up to `limit`.
   */
  function GrowSpan(pos: int, len: int, factor: real, limit: int): (span: (int, int))
    ensures span.0 >= 0 && span.1 <= limit - span.0
  {
    var grown := Trunc(len as real * factor);
    var start := Max(0, pos - CDiv(grown - len, 2));
    (start, Min(grown, limit - start))
  }

  /**
   * `expandRect`: factors up to 1 leave the box alone; otherwise the box
   * grows about its centre and is clamped to the image.
   */
  function ExpandRect(rect: Rect, factor: real, image: Size): (r: Rect)
    ensures factor <= 1.0 ==> r == rect
    ensures factor > 1.0 ==>
      r.x >= 0 && r.y >= 0 && r.width <= image.width - r.x && r.height <= image.height - r.y
  {
    if factor <= 1.0 then rect
    else
      var (x, width) := GrowSpan(rect.x, rect.width, factor, image.width);
      var (y, height) := GrowSpan(rect.y, rect.height, factor, image.height);
      Rect(x, y, width, height)
  }

  /** A box of non-negative size inside the image. */
  predicate Inside(rect: Rect, image: Size)
  {
    rect.x >= 0 && rect.y >= 0 && rect.width >= 0 && rect.height >= 0
    && rect.x + rect.width <= image.width && rect.y + rect.height <= image.height
  }

  /** One axis of `expandRect`: the grown, clamped span covers the original one. */
  lemma ExpandAxisCovers(pos: int, len: int, factor: real, limit: int)
    requires factor > 1.0 && len >= 0 && pos >= 0 && pos + len <= limit
    ensures var span := GrowSpan(pos, len, factor, limit);
      span.0 <= pos && pos + len <= span.0 + span.1
  {
    var product := len as real * factor;
    assert product >= len as real by {
      assert product - len as real == len as real * (factor - 1.0);
      NonnegProduct(len as real, factor - 1.0);
    }
    var grown := Trunc(product);
    assert grown >= len;
  }

  lemma NonnegProduct(a: real, b: real)
    requires a >= 0.0 && b >= 0.0
    ensures a * b >= 0.0
  {
  }

  /** A box inside the image stays covered by its expansion, whatever the factor. */
  lemma ExpandCoversOriginal(rect: Rect, factor: real, image: Size)
    requires Inside(rect, image)
    ensures var r := ExpandRect(rect, factor, image);
      r.x <= rect.x && r.y <= rect.y
      && rect.x + rect.width <= r.x + r.width && rect.y + rect.height <= r.y + r.height
  {
    if factor > 1.0 {
      ExpandAxisCovers(rect.x, rect.width, factor, image.width);
      ExpandAxisCovers(rect.y, rect.height, factor, image.height);
    }
  }

  /** The demo's palette: green, red, blue, yellow, magenta, cyan. */
  function DemoDetectionColor(index: nat): (c: Color)
  {
    var colors := [Color(0, 255, 0), Color(0, 0, 255), Color(255, 0, 0),
                   Color(0, 255, 255), Color(255, 0, 255), Color(255, 255, 0)];
    colors[index % |colors|]
  }

  /**
   * The demo and the detector cycle through the same six colours with
   * period 6, but the demo lists magenta before cyan: the two palettes
   * agree on the first four slots and swap the last two.
   */
  lemma PalettesSwapLastTwo(index: nat)
    ensures DemoDetectionColor(index + 6) == DemoDetectionColor(index)
    ensures index % 6 < 4 ==> DemoDetectionColor(index) == FaceDetector.DetectionColor(index)
    ensures index % 6 == 4 ==> DemoDetectionColor(index) == FaceDetector.DetectionColor(index + 1)
    ensures index % 6 == 5 ==> DemoDetectionColor(index) == FaceDetector.DetectionColor(index - 1)
  {
    assert (index + 6) % 6 == index % 6;
    if index % 6 == 4 {
      assert (index + 1) % 6 == 5;
    }
    if index % 6 == 5 {
      assert (index - 1) % 6 == 4;
    }
  }

  // ---------------------------------------------------------------------
  // Greedy suppression

  /**
   * Whether the `k`-th detection of the confidence-sorted list survives:
   * no earlier survivor overlaps it by more than the threshold.
   */
  ghost predicate Kept(s: seq<Detection>, threshold: real, k: nat)
    requires k < |s|
    decreases k, 1
  {
    ClearUpTo(s, threshold, k, k)
  }

  /** No survivor among the first `bound` entries, and before `k`, overlaps entry `k` too much. */
  ghost predicate ClearUpTo(s: seq<Detection>, threshold: real, bound: nat, k: nat)
    requires k < |s|
    decreases k, 0
  {
    forall p :: 0 <= p < bound && p < k ==> (Kept(s, threshold, p) ==> IoU(s[p].bbox, s[k].bbox) <= threshold)
  }

  /** The survivors among the first `k` entries, in order. */
  ghost function Survivors(s: seq<Detection>, threshold: real, k: nat): (r: seq<Detection>)
    requires k <= |s|
    ensures |r| <= k
  {
    if k == 0 then []
    else Survivors(s, threshold, k - 1) + (if Kept(s, threshold, k - 1) then [s[k - 1]] else [])
  }

  /** The first detection always survives. */
  lemma FirstSurvives(s: seq<Detection>, threshold: real)
    requires |s| > 0
    ensures Kept(s, threshold, 0)
    ensures Survivors(s, threshold, |s|) != [] && Survivors(s, threshold, |s|)[0] == s[0]
  {
    SurvivorsStartWithFirst(s, threshold, |s|);
  }

  lemma {:induction false} SurvivorsStartWithFirst(s: seq<Detection>, threshold: real, k: nat)
    requires 0 < k <= |s|
    ensures Survivors(s, threshold, k) != [] && Survivors(s, threshold, k)[0] == s[0]
    decreases k
  {
    assert Kept(s, threshold, 0);
    if k > 1 {
      SurvivorsStartWithFirst(s, threshold, k - 1);
    }
  }

  /**
   * No two survivors overlap by more than the threshold, and each removed
   * detection overlaps an earlier survivor by more than the threshold.
   */
  lemma SuppressionIsGreedy(s: seq<Detection>, threshold: real, i: nat, j: nat)
    requires i < j < |s|
    ensures Kept(s, threshold, i) && Kept(s, threshold, j) ==> IoU(s[i].bbox, s[j].bbox) <= threshold
    ensures !Kept(s, threshold, j) ==>
              exists p :: 0 <= p < j && Kept(s, threshold, p) && IoU(s[p].bbox, s[j].bbox) > threshold
  {
    if !Kept(s, threshold, j) {
      assert !ClearUpTo(s, threshold, j, j);
    } else {
      assert ClearUpTo(s, threshold, j, j);
    }
  }

  /** The survivors are a subsequence of the sorted list, hence sorted by confidence too. */
  lemma {:induction false} SurvivorsAreSubsequence(s: seq<Detection>, threshold: real, k: nat)
    requires k <= |s|
    ensures IsSubsequence(Survivors(s, threshold, k), s[..k])
    decreases k
  {
    if k > 0 {
      SurvivorsAreSubsequence(s, threshold, k - 1);
      var r := Survivors(s, threshold, k);
      assert s[..k][..k - 1] == s[..k - 1];
      if Kept(s, threshold, k - 1) {
        assert r[..|r| - 1] == Survivors(s, threshold, k - 1);
      } else {
        assert r == Survivors(s, threshold, k - 1);
        SubsequenceOfPrefix(r, s[..k]);
      }
    }
  }

  lemma SurvivorsSorted(s: seq<Detection>, threshold: real)
    requires SortedByConfidence(s)
    ensures SortedByConfidence(Survivors(s, threshold, |s|))
  {
    SurvivorsAreSubsequence(s, threshold, |s|);
    assert s[..|s|] == s;
    SubsequenceKeepsSorted(Survivors(s, threshold, |s|), s);
  }

  lemma ClearUpToStep(s: seq<Detection>, threshold: real, i: nat, k: nat)
    requires i < |s| && k < |s|
    ensures ClearUpTo(s, threshold, i + 1, k)
            <==> ClearUpTo(s, threshold, i, k)
                 && (i < k && Kept(s, threshold, i) ==> IoU(s[i].bbox, s[k].bbox) <= threshold)
  {
  }

  lemma ClearUpToPast(s: seq<Detection>, threshold: real, bound: nat, k: nat)
    requires k < |s| && k <= bound
    ensures ClearUpTo(s, threshold, bound, k) <==> Kept(s, threshold, k)
  {
  }

  /** The inner loop for a kept entry `i`: every later kept entry it overlaps too much is knocked out. */
  method KnockOut(s: seq<Detection>, threshold: real, keep: array<bool>, i: nat)
    requires i < |s| && keep.Length == |s|
    requires forall k :: 0 <= k < |s| ==> keep[k] == ClearUpTo(s, threshold, i, k)
    requires keep[i]
    modifies keep
    ensures forall k :: 0 <= k < |s| ==> keep[k] == ClearUpTo(s, threshold, i + 1, k)
  {
    assert Kept(s, threshold, i) by {
      ClearUpToPast(s, threshold, i, i);
    }
    var j := i + 1;
    while j < |s|
      invariant i < j <= |s|
      invariant forall k :: 0 <= k < |s| ==>
        keep[k] == (if i < k < j then ClearUpTo(s, threshold, i + 1, k) else ClearUpTo(s, threshold, i, k))
    {
      ghost var target := ClearUpTo(s, threshold, i + 1, j);
      assert target == (keep[j] && IoU(s[i].bbox, s[j].bbox) <= threshold) by {
        ClearUpToStep(s, threshold, i, j);
      }
      if keep[j] && IoU(s[i].bbox, s[j].bbox) > threshold {
        keep[j] := false;
      }
      assert keep[j] == target;
      j := j + 1;
    }
    forall k | 0 <= k < |s|
      ensures keep[k] == ClearUpTo(s, threshold, i + 1, k)
    {
      ClearUpToStep(s, threshold, i, k);
    }
  }

  /**
   * The marking loops of `filterOverlappingDetections`: walking the list in
   * order, each entry still kept knocks out every later kept entry it
   * overlaps by more than the threshold.
   */
  method MarkSurvivors(s: seq<Detection>, threshold: real) returns (keep: array<bool>)
    ensures fresh(keep) && keep.Length == |s|
    ensures forall k :: 0 <= k < |s| ==> keep[k] == Kept(s, threshold, k)
  {
    keep := new bool[|s|](_ => true);
    var i := 0;
    while i < |s|
      invariant i <= |s| && keep.Length == |s|
      invariant forall k :: 0 <= k < |s| ==> keep[k] == ClearUpTo(s, threshold, i, k)
    {
      if keep[i] {
        KnockOut(s, threshold, keep, i);
      } else {
        ClearUpToPast(s, threshold, i, i);
        forall k | 0 <= k < |s|
          ensures keep[k] == ClearUpTo(s, threshold, i + 1, k)
        {
          ClearUpToStep(s, threshold, i, k);
        }
      }
      i := i + 1;
    }
    forall k | 0 <= k < |s|
      ensures keep[k] == Kept(s, threshold, k)
    {
      ClearUpToPast(s, threshold, |s|, k);
    }
  }

  /** The closing `remove_if`/`erase`: entries whose flag is down are dropped, the rest keep their order. */
  method EraseDropped(a: array<Detection>, keep: array<bool>, ghost threshold: real) returns (n: nat)
    requires keep.Length == a.Length
    requires forall k :: 0 <= k < a.Length ==> keep[k] == Kept(a[..], threshold, k)
    modifies a
    ensures n <= a.Length
    ensures a[..n] == Survivors(old(a[..]), threshold, a.Length)
  {
    ghost var input := a[..];
    n := 0;
    var r := 0;
    while r < a.Length
      invariant n <= r <= a.Length
      invariant a[..n] == Survivors(input, threshold, r)
      invariant a[r..] == input[r..]
    {
      var d := a[r];
      assert d == input[r];
      if keep[r] {
        a[n] := d;
        n := n + 1;
      }
      r := r + 1;
    }
  }

  /**
   * `filterOverlappingDetections`: lists of at most one entry are left
   * alone; otherwise sort by confidence, mark, and erase. `sorted` is the
   * order the sort produced, which the source leaves open among equal
   * confidences.
   */
  method FilterOverlapping(a: array<Detection>, threshold: real) returns (n: nat, ghost sorted: seq<Detection>)
    modifies a
    ensures n <= a.Length
    ensures a.Length <= 1 ==> n == a.Length && a[..] == old(a[..])
    ensures a.Length > 1 ==>
      SortedByConfidence(sorted) && multiset(sorted) == multiset(old(a[..]))
      && a[..n] == Survivors(sorted, threshold, |sorted|)
    ensures SortedByConfidence(a[..n])
  {
    sorted := a[..];
    if a.Length <= 1 {
      n := a.Length;
      return;
    }
    SortByConfidence(a);
    sorted := a[..];
    var keep := MarkSurvivors(a[..], threshold);
    n := EraseDropped(a, keep, threshold);
    SurvivorsSorted(sorted, threshold);
  }
}
