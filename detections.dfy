/**
 * What the detector and the demo share: `cv::Rect` as integer corner and
 * size, intersection over union as an exact ratio, the in-place sort by
 * confidence, and order-keeping filters (`std::remove_if` followed by
 * `erase`, or a loop of `push_back`s).
 */
module Detections {

  /** `cv::Rect`: top-left corner and size. */
  datatype Rect = Rect(x: int, y: int, width: int, height: int)

  /** `cv::Size`. */
  datatype Size = Size(width: int, height: int)

  /** A detection: its box and its confidence. */
  datatype Detection = Detection(bbox: Rect, confidence: real)

  /** `cv::Scalar` as a blue, green, red triple. */
  datatype Color = Color(b: int, g: int, r: int)

  function Max(a: int, b: int): int { if a >= b then a else b }
  function Min(a: int, b: int): int { if a <= b then a else b }

  /** `cv::Rect::area`. */
  function Area(r: Rect): int { r.width * r.height }

  /** The boxes overlap on a region of positive width and height. */
  predicate Overlap(r1: Rect, r2: Rect)
  {
    Max(r1.x, r2.x) < Min(r1.x + r1.width, r2.x + r2.width)
    && Max(r1.y, r2.y) < Min(r1.y + r1.height, r2.y + r2.height)
  }

  /** Area of the overlap region, 0 when there is none. */
  function Intersection(r1: Rect, r2: Rect): (inter: int)
    ensures inter >= 0
    ensures Overlap(r1, r2) ==> 0 < inter <= Area(r1) && inter <= Area(r2)
  {
    if !Overlap(r1, r2) then 0
    else
      var w := Min(r1.x + r1.width, r2.x + r2.width) - Max(r1.x, r2.x);
      var h := Min(r1.y + r1.height, r2.y + r2.height) - Max(r1.y, r2.y);
      MulPositive(w, h);
      MulMonotone(w, h, r1.width, r1.height);
      MulMonotone(w, h, r2.width, r2.height);
      w * h
  }

  lemma MulPositive(a: int, b: int)
    requires a > 0 && b > 0
    ensures a * b > 0
  {
  }

  lemma MulMonotone(a: int, b: int, c: int, d: int)
    requires 0 < a <= c && 0 < b <= d
    ensures a * b <= c * d
  {
    MulNonNegative(c - a, b);
    MulNonNegative(c, d - b);
    assert (c - a) * b == c * b - a * b;
    assert c * (d - b) == c * d - c * b;
  }

  lemma MulNonNegative(a: int, b: int)
    requires a >= 0 && b >= 0
    ensures a * b >= 0
  {
  }

  /**
   * `calculateIoU`: intersection over union, 0 without a positive overlap.
   * The ratio is exact; the source computes it in `double`.
   */
  function IoU(r1: Rect, r2: Rect): (iou: real)
    ensures 0.0 <= iou <= 1.0
    ensures iou == 0.0 <==> !Overlap(r1, r2)
  {
    if !Overlap(r1, r2) then 0.0
    else
      var inter := Intersection(r1, r2);
      var union := Area(r1) + Area(r2) - inter;
      RatioInUnit(inter, union);
      inter as real / union as real
  }

  /** A positive part over a whole at least as large is a fraction in (0, 1]. */
  lemma RatioInUnit(part: int, whole: int)
    requires 0 < part <= whole
    ensures 0.0 < part as real / whole as real <= 1.0
  {
    var q := part as real / whole as real;
    assert q * whole as real == part as real;
  }

  /** IoU does not depend on the order of its arguments. */
  lemma IoUSymmetric(r1: Rect, r2: Rect)
    ensures IoU(r1, r2) == IoU(r2, r1)
  {
    assert Overlap(r1, r2) <==> Overlap(r2, r1);
    if Overlap(r1, r2) {
      assert Intersection(r1, r2) == Intersection(r2, r1);
    }
  }

  /** A box of positive size overlaps itself completely. */
  lemma IoUOfItself(r: Rect)
    requires r.width > 0 && r.height > 0
    ensures IoU(r, r) == 1.0
  {
    assert Overlap(r, r);
    assert Intersection(r, r) == Area(r);
    MulPositive(r.width, r.height);
  }

  // ---------------------------------------------------------------------
  // Confidence order

  /** Non-increasing confidence, the order `a.confidence > b.confidence` sorts into. */
  predicate SortedByConfidence(s: seq<Detection>)
  {
    forall i, j :: 0 <= i < j < |s| ==> s[i].confidence >= s[j].confidence
  }

  /**
   * `std::sort` with the comparator `a.confidence > b.confidence`, as an
   * insertion sort: any order among equal confidences is allowed by the
   * source, and the contract fixes none.
   */
  method SortByConfidence(a: array<Detection>)
    modifies a
    ensures SortedByConfidence(a[..])
    ensures multiset(a[..]) == multiset(old(a[..]))
  {
    if a.Length <= 1 {
      return;
    }
    var i := 1;
    while i < a.Length
      invariant 1 <= i <= a.Length
      invariant SortedByConfidence(a[..i])
      invariant multiset(a[..]) == multiset(old(a[..]))
    {
      InsertLast(a, i);
      i := i + 1;
    }
    assert a[..a.Length] == a[..];
  }

  /** Moves `a[i]` down into the sorted prefix `a[..i]`. */
  method InsertLast(a: array<Detection>, i: nat)
    requires i < a.Length
    requires SortedByConfidence(a[..i])
    modifies a
    ensures SortedByConfidence(a[..i + 1])
    ensures a[i + 1..] == old(a[i + 1..])
    ensures multiset(a[..]) == multiset(old(a[..]))
  {
    var j := i;
    HoleSortedInit(a[..], i);
    while j > 0 && a[j - 1].confidence < a[j].confidence
      invariant 0 <= j <= i
      invariant HoleSorted(a[..], j, i)
      invariant a[i + 1..] == old(a[i + 1..])
      invariant multiset(a[..]) == multiset(old(a[..]))
    {
      ghost var before := a[..];
      SwapAdjacent(a, j - 1);
      HoleSortedStep(before, a[..], j, i);
      j := j - 1;
    }
    HoleSortedExit(a[..], j, i);
  }

  /** Exchanges `a[p]` and `a[p + 1]`. */
  method SwapAdjacent(a: array<Detection>, p: nat)
    requires p + 1 < a.Length
    modifies a
    ensures a[..] == old(a[..])[p := old(a[p + 1])][p + 1 := old(a[p])]
    ensures multiset(a[..]) == multiset(old(a[..]))
  {
    ghost var before := a[..];
    a[p], a[p + 1] := a[p + 1], a[p];
    assert a[..] == before[p := before[p + 1]][p + 1 := before[p]];
    SwapKeepsMultiset(before, p, p + 1);
  }

  /**
   * `s[..i + 1]` is in order except that `s[j]`, the element being moved
   * down, may outrank what lies before it.
   */
  predicate HoleSorted(s: seq<Detection>, j: nat, i: nat)
    requires j <= i < |s|
  {
    (forall p, q :: 0 <= p < q <= i && p != j && q != j ==> s[p].confidence >= s[q].confidence)
    && (forall q :: j < q <= i ==> s[j].confidence >= s[q].confidence)
  }

  lemma HoleSortedInit(s: seq<Detection>, i: nat)
    requires i < |s| && SortedByConfidence(s[..i])
    ensures HoleSorted(s, i, i)
  {
    forall p, q | 0 <= p < q <= i && p != i && q != i
      ensures s[p].confidence >= s[q].confidence
    {
      assert s[..i][p] == s[p] && s[..i][q] == s[q];
    }
  }

  lemma HoleSortedStep(s: seq<Detection>, t: seq<Detection>, j: nat, i: nat)
    requires 0 < j <= i < |s|
    requires HoleSorted(s, j, i) && s[j - 1].confidence < s[j].confidence
    requires t == s[j - 1 := s[j]][j := s[j - 1]]
    ensures HoleSorted(t, j - 1, i)
    ensures t[i + 1..] == s[i + 1..]
  {
  }

  lemma HoleSortedExit(s: seq<Detection>, j: nat, i: nat)
    requires j <= i < |s|
    requires HoleSorted(s, j, i) && (j == 0 || s[j - 1].confidence >= s[j].confidence)
    ensures SortedByConfidence(s[..i + 1])
  {
    forall p, q | 0 <= p < q <= i
      ensures s[p].confidence >= s[q].confidence
    {
      if 0 < j && p < j - 1 && q == j {
        assert s[p].confidence >= s[j - 1].confidence;
      }
    }
  }

  lemma SwapKeepsMultiset<T>(s: seq<T>, p: nat, q: nat)
    requires p < q < |s|
    ensures multiset(s[p := s[q]][q := s[p]]) == multiset(s)
  {
    var u := s[p := s[q]];
    assert multiset(u) == multiset(s) - multiset{s[p]} + multiset{s[q]};
    assert u[q] == s[q];
    assert multiset(u[q := s[p]]) == multiset(u) - multiset{s[q]} + multiset{s[p]};
  }

  // ---------------------------------------------------------------------
  // Order-keeping filters

  /** `sub` is `s` with some elements removed, the rest in their order. */
  ghost predicate IsSubsequence<T>(sub: seq<T>, s: seq<T>)
    decreases |s|
  {
    if sub == [] then true
    else if s == [] then false
    else if sub[|sub| - 1] == s[|s| - 1] then IsSubsequence(sub[..|sub| - 1], s[..|s| - 1])
    else IsSubsequence(sub, s[..|s| - 1])
  }

  /** The elements of `s` that satisfy `p`, in their order. */
  function Filter<T>(s: seq<T>, p: T -> bool): (r: seq<T>)
    ensures |r| <= |s|
  {
    if s == [] then []
    else Filter(s[..|s| - 1], p) + (if p(s[|s| - 1]) then [s[|s| - 1]] else [])
  }

  /** Filtering one more element of a prefix appends it when it passes. */
  lemma FilterStep<T>(s: seq<T>, i: nat, p: T -> bool)
    requires i < |s|
    ensures Filter(s[..i + 1], p) == Filter(s[..i], p) + (if p(s[i]) then [s[i]] else [])
  {
    assert s[..i + 1][..i] == s[..i];
  }

  lemma {:induction false} FilterMembers<T>(s: seq<T>, p: T -> bool, x: T)
    ensures x in Filter(s, p) <==> x in s && p(x)
    decreases |s|
  {
    if s != [] {
      FilterMembers(s[..|s| - 1], p, x);
      assert s == s[..|s| - 1] + [s[|s| - 1]];
    }
  }

  lemma {:induction false} FilterIsSubsequence<T>(s: seq<T>, p: T -> bool)
    ensures IsSubsequence(Filter(s, p), s)
    decreases |s|
  {
    if s != [] {
      var init := s[..|s| - 1];
      FilterIsSubsequence(init, p);
      if p(s[|s| - 1]) {
        var r := Filter(s, p);
        assert r[..|r| - 1] == Filter(init, p);
      } else {
        assert Filter(s, p) == Filter(init, p);
        SubsequenceOfPrefix(Filter(init, p), s);
      }
    }
  }

  /** Adding elements at the end of `s` keeps a subsequence one. */
  lemma SubsequenceOfPrefix<T>(sub: seq<T>, s: seq<T>)
    requires s != [] && IsSubsequence(sub, s[..|s| - 1])
    ensures IsSubsequence(sub, s)
    decreases |s|, 0
  {
    if sub != [] && sub[|sub| - 1] == s[|s| - 1] {
      SubsequenceShorter(sub, s[..|s| - 1]);
    }
  }

  /** Dropping the last element of a subsequence keeps it a subsequence. */
  lemma {:induction false} SubsequenceShorter<T>(sub: seq<T>, s: seq<T>)
    requires sub != [] && IsSubsequence(sub, s)
    ensures IsSubsequence(sub[..|sub| - 1], s)
    decreases |s|, 1
  {
    var init := s[..|s| - 1];
    if sub[|sub| - 1] == s[|s| - 1] {
      assert IsSubsequence(sub[..|sub| - 1], init);
      SubsequenceOfPrefix(sub[..|sub| - 1], s);
    } else {
      SubsequenceShorter(sub, init);
      SubsequenceOfPrefix(sub[..|sub| - 1], s);
    }
  }

  lemma {:induction false} SubsequenceMembers<T>(sub: seq<T>, s: seq<T>, x: T)
    requires IsSubsequence(sub, s) && x in sub
    ensures x in s
    decreases |s|
  {
    var init := s[..|s| - 1];
    assert s == init + [s[|s| - 1]];
    if sub[|sub| - 1] == s[|s| - 1] {
      if x != s[|s| - 1] {
        assert sub == sub[..|sub| - 1] + [sub[|sub| - 1]];
        SubsequenceMembers(sub[..|sub| - 1], init, x);
      }
    } else {
      SubsequenceMembers(sub, init, x);
    }
  }

  /** What is left of a list sorted by confidence is still sorted. */
  lemma {:induction false} SubsequenceKeepsSorted(sub: seq<Detection>, s: seq<Detection>)
    requires IsSubsequence(sub, s) && SortedByConfidence(s)
    ensures SortedByConfidence(sub)
    decreases |s|
  {
    if sub != [] {
      var init := s[..|s| - 1];
      assert SortedByConfidence(init);
      if sub[|sub| - 1] == s[|s| - 1] {
        var front := sub[..|sub| - 1];
        SubsequenceKeepsSorted(front, init);
        forall i | 0 <= i < |front|
          ensures front[i].confidence >= s[|s| - 1].confidence
        {
          SubsequenceMembers(front, init, front[i]);
          var k :| 0 <= k < |init| && init[k] == front[i];
        }
        assert sub == front + [s[|s| - 1]];
      } else {
        SubsequenceKeepsSorted(sub, init);
      }
    }
  }
}
