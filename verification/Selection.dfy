/**
  Choosing the best scores: top_k for classification and the decoding of detector
  queries.  NumPy's argpartition and argsort are taken by their contracts, so every
  way they may order equal scores is covered.
 */
module Selection {
  import opened Common

  // ------------------------------------------------------------ ranked selections

  predicate Distinct(xs: seq<nat>) {
    forall i, j | 0 <= i < j < |xs| :: xs[i] != xs[j]
  }

  predicate InRange(xs: seq<nat>, n: nat) {
    forall i | 0 <= i < |xs| :: xs[i] < n
  }

  predicate Descending(scores: seq<real>, xs: seq<nat>)
    requires InRange(xs, |scores|)
  {
    forall i, j | 0 <= i < j < |xs| :: scores[xs[i]] >= scores[xs[j]]
  }

  /** `xs` lists distinct candidates, best first, and no candidate left out beats a listed one. */
  ghost predicate Leading(scores: seq<real>, candidates: set<nat>, xs: seq<nat>) {
    && InRange(xs, |scores|) && Distinct(xs) && Descending(scores, xs)
    && (forall i | 0 <= i < |xs| :: xs[i] in candidates)
    && (forall c, i | c in candidates && c < |scores| && c !in xs && 0 <= i < |xs| :: scores[xs[i]] >= scores[c])
  }

  ghost function Members(xs: seq<nat>): set<nat> {
    set x | x in xs
  }

  lemma {:induction false} DistinctCount(xs: seq<nat>)
    requires Distinct(xs)
    ensures |Members(xs)| == |xs|
  {
    if xs == [] {
      assert Members(xs) == {};
    } else {
      var front := xs[..|xs| - 1];
      var last := xs[|xs| - 1];
      DistinctCount(front);
      assert xs == front + [last];
      assert Members(xs) == Members(front) + {last};
      assert last !in front;
    }
  }

  lemma {:induction false} SubsetCount(a: set<nat>, b: set<nat>)
    requires a <= b
    ensures |a| <= |b|
  {
    if a != {} {
      var x :| x in a;
      SubsetCount(a - {x}, b - {x});
    }
  }

  /** What beats the i-th of a leading list stands before it. */
  lemma BetterIsEarlier(scores: seq<real>, candidates: set<nat>, a: seq<nat>, i: nat, c: nat)
    requires Leading(scores, candidates, a) && i < |a| && c in candidates && c < |scores|
    requires scores[c] > scores[a[i]]
    ensures c in a[..i]
  {
    assert c in a;
    var m :| 0 <= m < |a| && a[m] == c;
    assert m < i;
    assert a[..i][m] == c;
  }

  lemma NotWorse(scores: seq<real>, candidates: set<nat>, a: seq<nat>, b: seq<nat>, i: nat)
    requires Leading(scores, candidates, a) && Leading(scores, candidates, b)
    requires i < |a| && i < |b|
    ensures scores[a[i]] >= scores[b[i]]
  {
    if scores[a[i]] < scores[b[i]] {
      forall c | c in Members(b[..i + 1]) ensures c in Members(a[..i]) {
        var j :| 0 <= j < i + 1 && b[j] == c;
        BetterIsEarlier(scores, candidates, a, i, c);
      }
      DistinctCount(b[..i + 1]);
      DistinctCount(a[..i]);
      SubsetCount(Members(b[..i + 1]), Members(a[..i]));
    }
  }

  /** Two leading lists over the same candidates show the same scores, position by position. */
  lemma LeadingScoresUnique(scores: seq<real>, candidates: set<nat>, a: seq<nat>, b: seq<nat>, i: nat)
    requires Leading(scores, candidates, a) && Leading(scores, candidates, b)
    requires i < |a| && i < |b|
    ensures scores[a[i]] == scores[b[i]]
  {
    NotWorse(scores, candidates, a, b, i);
    NotWorse(scores, candidates, b, a, i);
  }

  // --------------------------------------------------------------------- top_k

  predicate Permutation(xs: seq<nat>, n: nat) {
    |xs| == n && InRange(xs, n) && Distinct(xs)
  }

  /** np.argpartition(-scores, kth=k - 1): the first k positions hold k best entries. */
  predicate Partitions(scores: seq<real>, perm: seq<nat>, k: nat) {
    && Permutation(perm, |scores|) && k <= |scores|
    && forall i, j | 0 <= i < k <= j < |perm| :: scores[perm[i]] >= scores[perm[j]]
  }

  /** np.argsort(-values) */
  predicate SortsDescending(values: seq<real>, order: seq<nat>) {
    Permutation(order, |values|) && Descending(values, order)
  }

  /** np.take_along_axis, and indexing by an array of indices. */
  function Take<T>(xs: seq<T>, indices: seq<nat>): (taken: seq<T>)
    requires InRange(indices, |xs|)
    ensures |taken| == |indices|
    ensures forall i | 0 <= i < |indices| :: taken[i] == xs[indices[i]]
  {
    seq(|indices|, i requires 0 <= i < |indices| => xs[indices[i]])
  }

  /** top_k's results, given what argpartition and argsort returned. */
  function TopK(scores: seq<real>, k: nat, perm: seq<nat>, order: seq<nat>): (r: (seq<real>, seq<nat>))
    requires Partitions(scores, perm, Min(k, |scores|))
    requires SortsDescending(Take(scores, perm[..Min(k, |scores|)]), order)
  {
    var indices := perm[..Min(k, |scores|)];
    var selected := Take(scores, indices);
    (Take(selected, order), Take(indices, order))
  }

  ghost function Upto(n: nat): (s: set<nat>)
    ensures forall x: nat :: x in s <==> x < n
  {
    if n == 0 then {} else Upto(n - 1) + {n - 1}
  }

  lemma {:induction false} BoundedCount(s: set<nat>, n: nat)
    requires forall x | x in s :: x < n
    ensures |s| <= n
  {
    if n == 0 {
      assert s == {};
    } else {
      BoundedCount(s - {n - 1}, n - 1);
    }
  }

  /** A permutation reaches every index. */
  lemma PermutationCovers(perm: seq<nat>, n: nat, x: nat)
    requires Permutation(perm, n) && x < n
    ensures x in perm
  {
    DistinctCount(perm);
    if x !in perm {
      BoundedCount(Members(perm) + {x}, n);
    }
  }

  lemma SortedIsLeading(scores: seq<real>, order: seq<nat>)
    requires SortsDescending(scores, order)
    ensures Leading(scores, Upto(|scores|), order)
  {
    forall c: nat | c < |scores| ensures c in order {
      PermutationCovers(order, |scores|, c);
    }
  }

  /** A permutation of a selection still lists every selected index. */
  lemma SelectedIsListed(indices: seq<nat>, order: seq<nat>, m: nat)
    requires Permutation(order, |indices|) && m < |indices|
    ensures indices[m] in Take(indices, order)
  {
    PermutationCovers(order, |indices|, m);
    var q :| 0 <= q < |order| && order[q] == m;
    assert Take(indices, order)[q] == indices[m];
  }

  lemma TakeDistinct(indices: seq<nat>, order: seq<nat>)
    requires Distinct(indices) && InRange(order, |indices|) && Distinct(order)
    ensures Distinct(Take(indices, order))
  {
  }

  /** An entry that the selection left out does not beat a selected one. */
  lemma OmittedIsNoBetter(scores: seq<real>, perm: seq<nat>, n: nat, order: seq<nat>, c: nat, i: nat)
    requires n <= |scores| && Partitions(scores, perm, n) && Permutation(order, n) && i < n && c < |scores|
    requires c !in Take(perm[..n], order)
    ensures scores[Take(perm[..n], order)[i]] >= scores[c]
  {
    PermutationCovers(perm, |scores|, c);
    var m: nat :| m < |perm| && perm[m] == c;
    if m < n {
      SelectedIsListed(perm[..n], order, m);
    }
    assert Take(perm[..n], order)[i] == perm[order[i]];
  }

  lemma TopKIsLeading(scores: seq<real>, k: nat, perm: seq<nat>, order: seq<nat>)
    requires Partitions(scores, perm, Min(k, |scores|))
    requires SortsDescending(Take(scores, perm[..Min(k, |scores|)]), order)
    ensures var (values, indices) := TopK(scores, k, perm, order);
      && Leading(scores, Upto(|scores|), indices)
      && |indices| == Min(k, |scores|)
      && values == Take(scores, indices)
  {
    var n := Min(k, |scores|);
    var (values, indices) := TopK(scores, k, perm, order);
    TakeDistinct(perm[..n], order);
    forall i, j | 0 <= i < j < |indices| ensures scores[indices[i]] >= scores[indices[j]] {
      assert values[i] >= values[j];
    }
    forall c: nat, i | c < |scores| && c !in indices && 0 <= i < |indices| ensures scores[indices[i]] >= scores[c] {
      OmittedIsNoBetter(scores, perm, n, order, c, i);
    }
  }

  /**
    Whatever argpartition and argsort do with ties, top_k returns the scores a full
    descending sort starts with, in that order, and distinct indices that have them.
   */
  lemma TopKIsPrefixOfSort(scores: seq<real>, k: nat, perm: seq<nat>, order: seq<nat>, full: seq<nat>)
    requires Partitions(scores, perm, Min(k, |scores|))
    requires SortsDescending(Take(scores, perm[..Min(k, |scores|)]), order)
    requires SortsDescending(scores, full)
    ensures var (values, indices) := TopK(scores, k, perm, order);
      && values == Take(scores, full)[..Min(k, |scores|)]
      && InRange(indices, |scores|) && Distinct(indices) && values == Take(scores, indices)
  {
    var (values, indices) := TopK(scores, k, perm, order);
    TopKIsLeading(scores, k, perm, order);
    SortedIsLeading(scores, full);
    forall i | 0 <= i < |values| ensures values[i] == Take(scores, full)[i] {
      LeadingScoresUnique(scores, Upto(|scores|), indices, full, i);
    }
  }

  // ------------------------------------------------------------------ detection

  /** The first best class of a query: argmax. */
  function ArgMax(xs: seq<real>): (k: nat)
    requires xs != []
    ensures k < |xs|
    ensures forall j | 0 <= j < |xs| :: xs[k] >= xs[j]
    ensures forall j | 0 <= j < k :: xs[k] > xs[j]
  {
    if |xs| == 1 then 0
    else
      var k := ArgMax(xs[..|xs| - 1]);
      if xs[|xs| - 1] > xs[k] then |xs| - 1 else k
  }

  predicate ScoreTable(scores: seq<seq<real>>) {
    forall q | 0 <= q < |scores| :: scores[q] != []
  }

  function BestScores(scores: seq<seq<real>>): (best: seq<real>)
    requires ScoreTable(scores)
    ensures |best| == |scores|
    ensures forall q | 0 <= q < |scores| :: best[q] == scores[q][ArgMax(scores[q])]
  {
    seq(|scores|, q requires 0 <= q < |scores| => scores[q][ArgMax(scores[q])])
  }

  /** np.where(best >= threshold)[0] */
  function Above(best: seq<real>, threshold: real, n: nat): (keep: seq<nat>)
    requires n <= |best|
    ensures forall i | 0 <= i < |keep| :: keep[i] < n && best[keep[i]] >= threshold
    ensures Distinct(keep)
    ensures forall q: nat | q < n && best[q] >= threshold :: q in keep
  {
    if n == 0 then []
    else if best[n - 1] >= threshold then Above(best, threshold, n - 1) + [n - 1]
    else Above(best, threshold, n - 1)
  }

  /** A normalised centre-format box, and a corner-format box in pixels. */
  datatype CentreBox = CentreBox(cx: real, cy: real, w: real, h: real)
  datatype CornerBox = CornerBox(xMin: real, yMin: real, xMax: real, yMax: real)

  function Clip(x: real, low: real, high: real): real {
    if x < low then low else if x > high then high else x
  }

  /** A share of an axis in pixels. */
  function Pixels(share: real, size: real): real {
    share * size
  }

  /** A corner coordinate on one axis: the low one for side -1, the high one for side 1. */
  function Corner(centre: real, extent: real, size: nat, side: real): real {
    Clip(Pixels(centre + side * extent / 2.0, size as real), 0.0, size as real)
  }

  function ToAbsolute(b: CentreBox, width: nat, height: nat): CornerBox {
    CornerBox(Corner(b.cx, b.w, width, -1.0), Corner(b.cy, b.h, height, -1.0),
              Corner(b.cx, b.w, width, 1.0), Corner(b.cy, b.h, height, 1.0))
  }

  /** Whatever the model emits, a reported box lies in the picture. */
  lemma BoxesStayInside(b: CentreBox, width: nat, height: nat)
    ensures var c := ToAbsolute(b, width, height);
      && 0.0 <= c.xMin <= width as real && 0.0 <= c.xMax <= width as real
      && 0.0 <= c.yMin <= height as real && 0.0 <= c.yMax <= height as real
  {
    hide Corner;
    CornerInside(b.cx, b.w, width, -1.0);
    CornerInside(b.cx, b.w, width, 1.0);
    CornerInside(b.cy, b.h, height, -1.0);
    CornerInside(b.cy, b.h, height, 1.0);
  }

  lemma CornerInside(centre: real, extent: real, size: nat, side: real)
    ensures 0.0 <= Corner(centre, extent, size, side) <= size as real
  {
    ClipInside(Pixels(centre + side * extent / 2.0, size as real), size as real);
  }

  lemma ClipInside(x: real, high: real)
    requires high >= 0.0
    ensures 0.0 <= Clip(x, 0.0, high) <= high
  {
  }

  lemma PixelsMonotone(a: real, b: real, m: real)
    requires m > 0.0
    ensures Pixels(a, m) <= Pixels(b, m) <==> a <= b
  {
    assert Pixels(b, m) - Pixels(a, m) == (b - a) * m;
    if a > b {
      assert (a - b) * m > 0.0;
    } else {
      assert (b - a) * m >= 0.0;
    }
  }

  lemma PixelsAtEdges(m: real)
    ensures Pixels(0.0, m) == 0.0 && Pixels(1.0, m) == m
  {
  }

  lemma ClipOrder(a: real, b: real, high: real)
    requires high > 0.0
    ensures Clip(a, 0.0, high) <= Clip(b, 0.0, high) <==> a <= b || a <= 0.0 || b >= high
  {
  }

  /**
    On an axis a box is not inside out exactly if its extent is not negative or it is
    clipped to one edge of the picture.
   */
  lemma AxisOrderedExactly(centre: real, extent: real, size: nat)
    ensures Corner(centre, extent, size, -1.0) <= Corner(centre, extent, size, 1.0)
      <==> extent >= 0.0 || size == 0 || centre - extent / 2.0 <= 0.0 || centre + extent / 2.0 >= 1.0
  {
    hide Pixels;
    var m := size as real;
    if size == 0 {
      CornerInside(centre, extent, size, -1.0);
      CornerInside(centre, extent, size, 1.0);
    } else {
      CornersOrdered(centre + -1.0 * extent / 2.0, centre + 1.0 * extent / 2.0, m);
    }
  }

  lemma CornersOrdered(low: real, high: real, m: real)
    requires m > 0.0
    ensures Clip(Pixels(low, m), 0.0, m) <= Clip(Pixels(high, m), 0.0, m) <==> low <= high || low <= 0.0 || high >= 1.0
  {
    hide Clip, Pixels;
    ClipOrder(Pixels(low, m), Pixels(high, m), m);
    PixelsAtEdges(m);
    PixelsMonotone(low, high, m);
    PixelsMonotone(low, 0.0, m);
    PixelsMonotone(1.0, high, m);
  }

  /** Along an axis: for a box inside the picture the corners give centre and extent back exactly. */
  lemma AxisInverts(centre: real, extent: real, size: nat)
    requires size > 0 && 0.0 <= centre - extent / 2.0 && centre + extent / 2.0 <= 1.0 && extent >= 0.0
    ensures var low := Corner(centre, extent, size, -1.0);
      var high := Corner(centre, extent, size, 1.0);
      low + high == 2.0 * Pixels(centre, size as real) && high - low == Pixels(extent, size as real)
  {
    hide Pixels;
    var m := size as real;
    Unclipped(centre + -1.0 * extent / 2.0, m);
    Unclipped(centre + 1.0 * extent / 2.0, m);
    SumAndDifference(centre, extent / 2.0, m);
    assert extent / 2.0 + extent / 2.0 == extent;
    assert centre + -1.0 * extent / 2.0 == centre - extent / 2.0;
    assert centre + 1.0 * extent / 2.0 == centre + extent / 2.0;
  }

  lemma Unclipped(x: real, m: real)
    requires 0.0 <= x <= 1.0 && m > 0.0
    ensures Clip(Pixels(x, m), 0.0, m) == Pixels(x, m)
  {
    hide Pixels;
    PixelsAtEdges(m);
    PixelsMonotone(0.0, x, m);
    PixelsMonotone(x, 1.0, m);
  }

  lemma SumAndDifference(centre: real, half: real, m: real)
    ensures Pixels(centre - half, m) + Pixels(centre + half, m) == 2.0 * Pixels(centre, m)
    ensures Pixels(centre + half, m) - Pixels(centre - half, m) == Pixels(half + half, m)
  {
    assert (centre - half) * m == centre * m - half * m;
    assert (centre + half) * m == centre * m + half * m;
    assert (half + half) * m == half * m + half * m;
  }

  datatype Label = Named(name: string) | Numbered(id: nat)

  datatype Detection = Detection(named: Label, classId: nat, confidence: real, box: CornerBox)

  function Detect(scores: seq<seq<real>>, boxes: seq<CentreBox>, classNames: seq<string>,
                  width: nat, height: nat, q: nat): Detection
    requires ScoreTable(scores) && q < |scores| == |boxes|
  {
    var id := ArgMax(scores[q]);
    Detection(if id < |classNames| then Named(classNames[id]) else Numbered(id),
              id, scores[q][id], ToAbsolute(boxes[q], width, height))
  }

  /** `v` is this share of an axis in pixels, moved to the nearest edge if it lies outside the picture. */
  predicate Clamped(v: real, share: real, size: nat) {
    var x := share * size as real;
    && (x < 0.0 ==> v == 0.0) && (x > size as real ==> v == size as real)
    && (0.0 <= x <= size as real ==> v == x)
  }

  /** The corners of a box in pixels of the picture, each clamped into it. */
  predicate CornersOf(c: CornerBox, b: CentreBox, width: nat, height: nat) {
    && Clamped(c.xMin, b.cx - b.w / 2.0, width) && Clamped(c.xMax, b.cx + b.w / 2.0, width)
    && Clamped(c.yMin, b.cy - b.h / 2.0, height) && Clamped(c.yMax, b.cy + b.h / 2.0, height)
  }

  lemma CornerClamps(centre: real, extent: real, size: nat)
    ensures Clamped(Corner(centre, extent, size, -1.0), centre - extent / 2.0, size)
    ensures Clamped(Corner(centre, extent, size, 1.0), centre + extent / 2.0, size)
  {
    hide Clip, Clamped, Pixels;
    assert centre + -1.0 * extent / 2.0 == centre - extent / 2.0;
    assert centre + 1.0 * extent / 2.0 == centre + extent / 2.0;
    ClipClamps(centre - extent / 2.0, size);
    ClipClamps(centre + extent / 2.0, size);
  }

  lemma ClipClamps(share: real, size: nat)
    ensures Clamped(Clip(Pixels(share, size as real), 0.0, size as real), share, size)
  {
  }

  /** A detection of a query: its first best class, that class's name and score, and its box. */
  predicate DetectionOf(d: Detection, scores: seq<real>, box: CentreBox, classNames: seq<string>,
                        width: nat, height: nat) {
    && d.classId < |scores| && d.confidence == scores[d.classId]
    && (forall j | 0 <= j < |scores| :: scores[j] <= d.confidence)
    && (forall j | 0 <= j < d.classId :: scores[j] < d.confidence)
    && d.named == (if d.classId < |classNames| then Named(classNames[d.classId]) else Numbered(d.classId))
    && CornersOf(d.box, box, width, height)
  }

  lemma DetectSays(scores: seq<seq<real>>, boxes: seq<CentreBox>, classNames: seq<string>,
                   width: nat, height: nat, q: nat)
    requires ScoreTable(scores) && q < |scores| == |boxes|
    ensures DetectionOf(Detect(scores, boxes, classNames, width, height, q), scores[q], boxes[q], classNames,
                        width, height)
  {
    BoxSays(boxes[q], width, height);
    hide CornersOf, ToAbsolute;
  }

  lemma BoxSays(b: CentreBox, width: nat, height: nat)
    ensures CornersOf(ToAbsolute(b, width, height), b, width, height)
  {
    hide Corner, Clamped;
    CornerClamps(b.cx, b.w, width);
    CornerClamps(b.cy, b.h, height);
  }

  /** The queries _decode reports: kept, sorted by confidence, truncated. */
  function Reported(keep: seq<nat>, order: seq<nat>, maxDetections: nat): (queries: seq<nat>)
    requires InRange(order, |keep|)
    ensures |queries| == Min(maxDetections, |order|)
  {
    Take(keep, order)[..Min(maxDetections, |order|)]
  }

  /** _decode; `order` is what np.argsort made of the kept scores. */
  method Decode(scores: seq<seq<real>>, boxes: seq<CentreBox>, classNames: seq<string>,
                width: nat, height: nat, threshold: real, maxDetections: nat, order: seq<nat>)
    returns (detections: seq<Detection>)
    requires ScoreTable(scores) && |scores| == |boxes|
    requires SortsDescending(Take(BestScores(scores), Above(BestScores(scores), threshold, |scores|)), order)
    ensures var queries := Reported(Above(BestScores(scores), threshold, |scores|), order, maxDetections);
      && |detections| == |queries|
      && InRange(queries, |scores|)
      && (forall i | 0 <= i < |queries| ::
            DetectionOf(detections[i], scores[queries[i]], boxes[queries[i]], classNames, width, height))
  {
    hide Detect, DetectionOf, Above, ArgMax, BestScores, Distinct, Descending;
    var keep := Above(BestScores(scores), threshold, |scores|);
    detections := [];
    if keep == [] {
      return;
    }
    keep := Reported(keep, order, maxDetections);
    for i := 0 to |keep|
      invariant |detections| == i
      invariant forall j | 0 <= j < i ::
        DetectionOf(detections[j], scores[keep[j]], boxes[keep[j]], classNames, width, height)
    {
      DetectSays(scores, boxes, classNames, width, height, keep[i]);
      detections := detections + [Detect(scores, boxes, classNames, width, height, keep[i])];
    }
  }

  ghost function Passing(best: seq<real>, threshold: real): set<nat> {
    set q: nat | q < |best| && best[q] >= threshold
  }

  /**
    A query is left out only if it is below the threshold or every reported query
    scores at least as high; reported ones are above it, distinct and best first.
   */
  lemma ReportedAreLeading(best: seq<real>, threshold: real, order: seq<nat>, maxDetections: nat)
    requires SortsDescending(Take(best, Above(best, threshold, |best|)), order)
    ensures var keep := Above(best, threshold, |best|);
      var queries := Reported(keep, order, maxDetections);
      && |queries| == Min(maxDetections, |keep|)
      && Leading(best, Passing(best, threshold), queries)
  {
    var keep := Above(best, threshold, |best|);
    var all := Take(keep, order);
    TakeDistinct(keep, order);
    var values := Take(best, keep);
    assert Descending(best, all) by {
      forall i, j | 0 <= i < j < |all| ensures best[all[i]] >= best[all[j]] {
        assert values[order[i]] >= values[order[j]];
      }
    }
    forall c | c in Passing(best, threshold) ensures c in all {
      assert c in keep;
      var m: nat :| m < |keep| && keep[m] == c;
      SelectedIsListed(keep, order, m);
    }
    TruncatedIsLeading(best, Passing(best, threshold), all, Min(maxDetections, |order|));
  }

  lemma TruncatedIsLeading(scores: seq<real>, candidates: set<nat>, all: seq<nat>, n: nat)
    requires Leading(scores, candidates, all) && n <= |all|
    ensures Leading(scores, candidates, all[..n])
  {
    forall p | 0 <= p < n ensures all[p] in all[..n] {
      assert all[..n][p] == all[p];
    }
    forall c, i | c in candidates && c < |scores| && c !in all[..n] && 0 <= i < n ensures scores[all[i]] >= scores[c] {
      if c in all {
        var p :| 0 <= p < |all| && all[p] == c;
        assert p >= n;
      }
    }
  }
}
