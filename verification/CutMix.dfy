/**
  MixUp and CutMix with soft targets, over exact reals.  An image is a grid of
  pixels; the channels of a pixel are always copied or blended alike, so one number
  stands for them.
 */
module CutMix {
  import opened Common

  datatype Config = Config(numClasses: nat, mixupAlpha: real, cutmixAlpha: real, prob: real, smoothing: real)

  predicate ValidConfig(c: Config) {
    c.numClasses >= 2 && 0.0 <= c.prob <= 1.0 && 0.0 <= c.smoothing < 1.0
  }

  /** The random choices of one call; `ratio` is the square root of 1 - lam. */
  datatype Draw = Draw(skip: real, coin: real, lam: real, ratio: real, cy: nat, cx: nat)

  predicate ValidDraw(d: Draw, height: nat, width: nat) {
    0.0 <= d.lam <= 1.0 && 0.0 <= d.ratio && d.ratio * d.ratio == 1.0 - d.lam && d.cy < height && d.cx < width
  }

  // -------------------------------------------------------------- soft targets

  ghost predicate Probability(xs: seq<real>) {
    Sum(xs) == 1.0 && forall j | 0 <= j < |xs| :: xs[j] >= 0.0
  }

  predicate LabelsInRange(c: Config, targets: seq<nat>) {
    forall i | 0 <= i < |targets| :: targets[i] < c.numClasses
  }

  function Off(c: Config): real
    requires ValidConfig(c)
  {
    c.smoothing / c.numClasses as real
  }

  /** The smoothed one-hot vector of a label. */
  function Smoothed(c: Config, target: nat): (row: seq<real>)
    requires ValidConfig(c)
    ensures |row| == c.numClasses
  {
    seq(c.numClasses, j requires 0 <= j => if j == target then 1.0 - c.smoothing + Off(c) else Off(c))
  }

  /** lam * x + (1 - lam) * y */
  function Mix(x: real, y: real, lam: real): real {
    x * lam + y * (1.0 - lam)
  }

  function Blend(xs: seq<real>, ys: seq<real>, lam: real): (row: seq<real>)
    requires |xs| == |ys|
    ensures |row| == |xs|
  {
    seq(|xs|, j requires 0 <= j < |xs| => Mix(xs[j], ys[j], lam))
  }

  lemma {:induction false} SumSpike(xs: seq<real>, low: real, high: real, target: nat)
    requires forall j | 0 <= j < |xs| :: xs[j] == if j == target then high else low
    ensures Sum(xs) == |xs| as real * low + if target < |xs| then high - low else 0.0
  {
    if xs != [] {
      SumSpike(xs[..|xs| - 1], low, high, target);
    }
  }

  lemma SmoothedIsProbability(c: Config, target: nat)
    requires ValidConfig(c) && target < c.numClasses
    ensures Probability(Smoothed(c, target))
  {
    SumSpike(Smoothed(c, target), Off(c), 1.0 - c.smoothing + Off(c), target);
    assert c.numClasses as real * Off(c) == c.smoothing;
    assert Off(c) >= 0.0;
  }

  lemma BlendFront(xs: seq<real>, ys: seq<real>, lam: real)
    requires |xs| == |ys| && xs != []
    ensures var n := |xs| - 1;
      && Blend(xs, ys, lam)[..n] == Blend(xs[..n], ys[..n], lam)
      && Blend(xs, ys, lam)[n] == Mix(xs[n], ys[n], lam)
  {
    hide Mix;
    var n := |xs| - 1;
    assert forall k | 0 <= k < n :: Blend(xs, ys, lam)[..n][k] == Blend(xs[..n], ys[..n], lam)[k];
  }

  lemma {:induction false} SumBlend(xs: seq<real>, ys: seq<real>, lam: real)
    requires |xs| == |ys|
    ensures Sum(Blend(xs, ys, lam)) == Mix(Sum(xs), Sum(ys), lam)
  {
    hide Blend, Mix;
    if xs == [] {
      MixOf(lam);
    } else {
      var n := |xs| - 1;
      SumBlend(xs[..n], ys[..n], lam);
      BlendFront(xs, ys, lam);
      MixAdds(Sum(xs[..n]), xs[n], Sum(ys[..n]), ys[n], lam);
    }
  }

  lemma MixAdds(a: real, b: real, a': real, b': real, lam: real)
    ensures Mix(a, a', lam) + Mix(b, b', lam) == Mix(a + b, a' + b', lam)
  {
    assert (a + b) * lam == a * lam + b * lam;
    assert (a' + b') * (1.0 - lam) == a' * (1.0 - lam) + b' * (1.0 - lam);
  }

  lemma MixOf(lam: real)
    ensures Mix(0.0, 0.0, lam) == 0.0 && Mix(1.0, 1.0, lam) == 1.0
  {
  }

  lemma MixNonNegative(x: real, y: real, lam: real)
    requires x >= 0.0 && y >= 0.0 && 0.0 <= lam <= 1.0
    ensures Mix(x, y, lam) >= 0.0
  {
    assert x * lam >= 0.0 && y * (1.0 - lam) >= 0.0;
  }

  lemma BlendIsProbability(xs: seq<real>, ys: seq<real>, lam: real)
    requires |xs| == |ys| && Probability(xs) && Probability(ys) && 0.0 <= lam <= 1.0
    ensures Probability(Blend(xs, ys, lam))
  {
    hide Sum, Mix;
    SumBlend(xs, ys, lam);
    MixOf(lam);
    forall j | 0 <= j < |xs| ensures Blend(xs, ys, lam)[j] >= 0.0 {
      MixNonNegative(xs[j], ys[j], lam);
    }
  }

  // ------------------------------------------------------------------- the box

  datatype Box = Box(y1: int, y2: int, x1: int, x2: int)

  /** int(size * ratio) */
  function CutSize(size: nat, ratio: real): int {
    (size as real * ratio).Floor
  }

  function CutmixBox(height: nat, width: nat, d: Draw): Box {
    var h := CutSize(height, d.ratio) / 2;
    var w := CutSize(width, d.ratio) / 2;
    Box(Max(d.cy - h, 0), Min(d.cy + h, height), Max(d.cx - w, 0), Min(d.cx + w, width))
  }

  /** Half of what is asked for of a side, in whole pixels. */
  predicate HalfSide(half: int, size: nat, ratio: real) {
    half >= 0 && 2.0 * half as real <= size as real * ratio < 2.0 * half as real + 2.0
  }

  lemma HalfSideIs(size: nat, ratio: real)
    requires 0.0 <= ratio
    ensures HalfSide(CutSize(size, ratio) / 2, size, ratio)
  {
    assert size as real * ratio >= 0.0;
    var cut := CutSize(size, ratio);
    assert cut as real <= size as real * ratio < cut as real + 1.0;
    assert cut == 2 * (cut / 2) || cut == 2 * (cut / 2) + 1;
  }

  /** A pixel of the image is replaced exactly if it is within half a side of the centre, both ways. */
  lemma BoxExactly(height: nat, width: nat, d: Draw, y: nat, x: nat)
    requires d.cy < height && d.cx < width && 0.0 <= d.ratio && y < height && x < width
    ensures exists h, w ::
      && HalfSide(h, height, d.ratio) && HalfSide(w, width, d.ratio)
      && (InBox(CutmixBox(height, width, d), y, x) <==> -h <= y - d.cy < h && -w <= x - d.cx < w)
  {
    HalfSideIs(height, d.ratio);
    HalfSideIs(width, d.ratio);
    hide CutSize;
    var h, w := CutSize(height, d.ratio) / 2, CutSize(width, d.ratio) / 2;
    assert InBox(CutmixBox(height, width, d), y, x) <==> -h <= y - d.cy < h && -w <= x - d.cx < w;
  }

  function Area(b: Box): int {
    (b.y2 - b.y1) * (b.x2 - b.x1)
  }

  predicate InBox(b: Box, y: int, x: int) {
    b.y1 <= y < b.y2 && b.x1 <= x < b.x2
  }

  /** The coefficient recomputed from the realised patch. */
  function Corrected(b: Box, height: nat, width: nat): real
    requires height > 0 && width > 0
  {
    1.0 - Area(b) as real / (height * width) as real
  }

  /** One side of the clipped box: inside the image and no longer than asked for. */
  lemma SideWithin(size: nat, ratio: real, centre: nat)
    requires centre < size && 0.0 <= ratio
    ensures var h := CutSize(size, ratio) / 2;
      var lo := Max(centre - h, 0);
      var hi := Min(centre + h, size);
      0 <= lo <= hi <= size && (hi - lo) as real <= size as real * ratio
  {
    assert size as real * ratio >= 0.0;
    var cut := CutSize(size, ratio);
    assert cut >= 0 && 2 * (cut / 2) <= cut;
  }

  lemma ProductBound(a: real, b: real, a': real, b': real)
    requires 0.0 <= a <= a' && 0.0 <= b <= b'
    ensures a * b <= a' * b'
  {
    assert a * b <= a' * b;
    assert a' * b <= a' * b';
  }

  lemma SquareRatio(height: real, width: real, ratio: real)
    ensures (height * ratio) * (width * ratio) == (height * width) * (ratio * ratio)
  {
  }

  /** The patch covers at most the sampled share of the image. */
  lemma PatchWithin(rows: int, columns: int, height: nat, width: nat, ratio: real, share: real)
    requires 0 <= rows && 0 <= columns && 0.0 <= ratio && ratio * ratio == share
    requires rows as real <= height as real * ratio && columns as real <= width as real * ratio
    ensures 0 <= rows * columns
    ensures (rows * columns) as real <= (height * width) as real * share
  {
    ProductBound(rows as real, columns as real, height as real * ratio, width as real * ratio);
    SquareRatio(height as real, width as real, ratio);
    assert (rows * columns) as real == rows as real * columns as real;
    assert (height * width) as real == height as real * width as real;
  }

  /** The box lies in the image and no side is longer than its share of the image's. */
  predicate SidesWithin(b: Box, height: nat, width: nat, ratio: real) {
    && 0 <= b.y1 <= b.y2 <= height && 0 <= b.x1 <= b.x2 <= width
    && (b.y2 - b.y1) as real <= height as real * ratio
    && (b.x2 - b.x1) as real <= width as real * ratio
  }

  /** The box covers at most this share of the image's pixels. */
  predicate CoversAtMost(b: Box, height: nat, width: nat, share: real) {
    0 <= Area(b) && Area(b) as real <= (height * width) as real * share
  }

  lemma SidesBoundArea(b: Box, height: nat, width: nat, ratio: real, share: real)
    requires SidesWithin(b, height, width, ratio) && 0.0 <= ratio && ratio * ratio == share
    ensures CoversAtMost(b, height, width, share)
  {
    PatchWithin(b.y2 - b.y1, b.x2 - b.x1, height, width, ratio, share);
  }

  lemma BoxWithin(height: nat, width: nat, d: Draw)
    requires d.cy < height && d.cx < width && 0.0 <= d.ratio
    ensures SidesWithin(CutmixBox(height, width, d), height, width, d.ratio)
  {
    hide CutSize;
    SideWithin(height, d.ratio, d.cy);
    SideWithin(width, d.ratio, d.cx);
  }

  lemma AreaWithin(height: nat, width: nat, d: Draw)
    requires ValidDraw(d, height, width)
    ensures var b := CutmixBox(height, width, d);
      && 0 <= b.y1 <= b.y2 <= height && 0 <= b.x1 <= b.x2 <= width
      && CoversAtMost(b, height, width, 1.0 - d.lam)
  {
    hide CutmixBox, CoversAtMost;
    BoxWithin(height, width, d);
    SidesBoundArea(CutmixBox(height, width, d), height, width, d.ratio, 1.0 - d.lam);
  }

  /** However the box is clipped, the corrected coefficient lies between the sampled one and 1. */
  lemma CorrectionOnlyRaises(height: nat, width: nat, d: Draw)
    requires ValidDraw(d, height, width)
    ensures d.lam <= Corrected(CutmixBox(height, width, d), height, width) <= 1.0
  {
    hide CutmixBox, Area;
    AreaWithin(height, width, d);
    PixelsPositive(height, width);
    Complement(Area(CutmixBox(height, width, d)) as real, (height * width) as real, d.lam);
  }

  lemma Complement(area: real, pixels: real, lam: real)
    requires 0.0 <= area && pixels > 0.0 && area <= pixels * (1.0 - lam)
    ensures lam <= 1.0 - area / pixels <= 1.0
  {
    DivideBound(area, pixels, 1.0 - lam);
  }

  lemma PixelsPositive(height: nat, width: nat)
    requires height > 0 && width > 0
    ensures height * width > 0
  {
  }

  lemma DivideBound(a: real, n: real, bound: real)
    requires 0.0 <= a && n > 0.0 && a <= n * bound
    ensures 0.0 <= a / n <= bound
  {
    var q := a / n;
    assert q * n == a;
    assert q > bound ==> q * n > bound * n;
  }

  // ----------------------------------------------------- counting replaced pixels

  /** The pixels of the first `rows` rows that lie in the box. */
  ghost function Replaced(b: Box, rows: nat, width: nat): set<(nat, nat)> {
    set y: nat, x: nat | y < rows && x < width && InBox(b, y, x) :: (y, x)
  }

  ghost function ReplacedInRow(b: Box, y: nat, columns: nat): set<(nat, nat)> {
    set x: nat | x < columns && InBox(b, y, x) :: (y, x)
  }

  lemma {:induction false} RowCount(b: Box, y: nat, columns: nat)
    requires b.y1 <= y < b.y2 && 0 <= b.x1 <= b.x2
    ensures |ReplacedInRow(b, y, columns)| == Max(0, Min(columns, b.x2) - b.x1)
  {
    if columns == 0 {
      assert ReplacedInRow(b, y, 0) == {};
    } else {
      RowCount(b, y, columns - 1);
      var before := ReplacedInRow(b, y, columns - 1);
      var x: nat := columns - 1;
      if InBox(b, y, x) {
        assert ReplacedInRow(b, y, columns) == before + {(y, x)};
      } else {
        assert ReplacedInRow(b, y, columns) == before;
      }
    }
  }

  lemma {:induction false} ReplacedCount(b: Box, rows: nat, width: nat)
    requires 0 <= b.y1 <= b.y2 && 0 <= b.x1 <= b.x2 <= width
    ensures |Replaced(b, rows, width)| == Max(0, Min(rows, b.y2) - b.y1) * (b.x2 - b.x1)
  {
    if rows == 0 {
      assert Replaced(b, 0, width) == {};
    } else {
      ReplacedCount(b, rows - 1, width);
      var before := Replaced(b, rows - 1, width);
      var y: nat := rows - 1;
      var row := ReplacedInRow(b, y, width);
      assert Replaced(b, rows, width) == before + row;
      assert before !! row;
      if b.y1 <= y < b.y2 {
        RowCount(b, y, width);
        var n := y - b.y1;
        assert n * (b.x2 - b.x1) + (b.x2 - b.x1) == (n + 1) * (b.x2 - b.x1);
      } else {
        assert row == {};
      }
    }
  }

  /** The partner's label weighs exactly the fraction of pixels that came from the partner. */
  lemma PartnerWeightIsPixelFraction(height: nat, width: nat, d: Draw)
    requires ValidDraw(d, height, width)
    ensures var b := CutmixBox(height, width, d);
      1.0 - Corrected(b, height, width) == |Replaced(b, height, width)| as real / (height * width) as real
  {
    AreaWithin(height, width, d);
    ReplacedCount(CutmixBox(height, width, d), height, width);
  }

  // -------------------------------------------------------------------- methods

  function Row(a: array2<real>, i: nat): (row: seq<real>)
    requires i < a.Length0
    reads a
    ensures |row| == a.Length1
  {
    seq(a.Length1, j requires 0 <= j < a.Length1 reads a => a[i, j])
  }

  predicate SameShape(a: array3<real>, b: array3<real>) {
    a.Length0 == b.Length0 && a.Length1 == b.Length1 && a.Length2 == b.Length2
  }

  /** The box shows the partner's pixels; everything else is the image's own. */
  ghost predicate Spliced(spliced: array3<real>, images: array3<real>, b: Box)
    reads spliced, images
  {
    SameShape(spliced, images) &&
    forall i, y, x {:trigger spliced[i, y, x]} |
      0 <= i < images.Length0 && 0 <= y < images.Length1 && 0 <= x < images.Length2 ::
      spliced[i, y, x] == if InBox(b, y, x) then images[images.Length0 - 1 - i, y, x] else images[i, y, x]
  }

  /** Every pixel is `lam` of its own and the rest of its partner's. */
  ghost predicate BlendedFrom(mixed: array3<real>, images: array3<real>, lam: real)
    reads mixed, images
  {
    SameShape(mixed, images) &&
    forall i, y, x {:trigger mixed[i, y, x]} |
      0 <= i < images.Length0 && 0 <= y < images.Length1 && 0 <= x < images.Length2 ::
      mixed[i, y, x] == lam * images[i, y, x] + (1.0 - lam) * images[images.Length0 - 1 - i, y, x]
  }

  /** torch.full, then scatter_ along the class axis. */
  method Smooth(c: Config, targets: seq<nat>) returns (soft: array2<real>)
    requires ValidConfig(c) && LabelsInRange(c, targets)
    ensures fresh(soft) && soft.Length0 == |targets| && soft.Length1 == c.numClasses
    ensures forall i | 0 <= i < |targets| :: Row(soft, i) == Smoothed(c, targets[i])
  {
    var off := Off(c);
    var on := 1.0 - c.smoothing + off;
    soft := new real[|targets|, c.numClasses]((i, j) => off);
    for i := 0 to |targets|
      invariant forall r, j {:trigger soft[r, j]} | 0 <= r < |targets| && 0 <= j < c.numClasses ::
        soft[r, j] == if r < i && j == targets[r] then on else off
    {
      soft[i, targets[i]] := on;
    }
    forall i | 0 <= i < |targets| ensures Row(soft, i) == Smoothed(c, targets[i]) {
      forall j | 0 <= j < c.numClasses ensures Row(soft, i)[j] == Smoothed(c, targets[i])[j] {
        assert soft[i, j] == if j == targets[i] then on else off;
        assert Row(soft, i)[j] == soft[i, j];
        assert Smoothed(c, targets[i])[j] == if j == targets[i] then on else off;
      }
    }
  }

  method Clone(images: array3<real>) returns (copy: array3<real>)
    ensures fresh(copy) && SameShape(copy, images)
    ensures forall i, y, x {:trigger copy[i, y, x]} |
      0 <= i < images.Length0 && 0 <= y < images.Length1 && 0 <= x < images.Length2 :: copy[i, y, x] == images[i, y, x]
  {
    copy := new real[images.Length0, images.Length1, images.Length2]((i, y, x) reads images
      requires 0 <= i < images.Length0 && 0 <= y < images.Length1 && 0 <= x < images.Length2 => images[i, y, x]);
  }

  /** images[..., y1:y2, x1:x2] = flipped[..., y1:y2, x1:x2] on a clone. */
  method Splice(images: array3<real>, b: Box) returns (spliced: array3<real>)
    requires 0 <= b.y1 <= b.y2 <= images.Length1 && 0 <= b.x1 <= b.x2 <= images.Length2
    ensures fresh(spliced) && Spliced(spliced, images, b)
  {
    var n := images.Length0;
    spliced := Clone(images);
    forall i, y, x | 0 <= i < n && b.y1 <= y < b.y2 && b.x1 <= x < b.x2 {
      spliced[i, y, x] := images[n - 1 - i, y, x];
    }
  }

  method BlendImages(images: array3<real>, lam: real) returns (mixed: array3<real>)
    ensures fresh(mixed) && BlendedFrom(mixed, images, lam)
  {
    var n := images.Length0;
    mixed := new real[n, images.Length1, images.Length2]((i, y, x) reads images
      requires 0 <= i < n && 0 <= y < images.Length1 && 0 <= x < images.Length2 =>
        images[i, y, x] * lam + images[n - 1 - i, y, x] * (1.0 - lam));
  }

  method BlendTargets(soft: array2<real>, lam: real) returns (mixed: array2<real>)
    ensures fresh(mixed) && mixed.Length0 == soft.Length0 && mixed.Length1 == soft.Length1
    ensures forall i | 0 <= i < soft.Length0 :: BlendsRow(soft, mixed, i, lam)
  {
    var n := soft.Length0;
    mixed := new real[n, soft.Length1]((i, j) reads soft
      requires 0 <= i < n && 0 <= j < soft.Length1 => soft[i, j] * lam + soft[n - 1 - i, j] * (1.0 - lam));
  }

  function UsesCutmix(c: Config, d: Draw): bool {
    c.cutmixAlpha > 0.0 && (c.mixupAlpha <= 0.0 || d.coin < 0.5)
  }

  /** A method that is switched off is never used if the other is on; with both on the coin decides. */
  lemma MethodChosen(c: Config, d: Draw)
    ensures c.cutmixAlpha <= 0.0 ==> !UsesCutmix(c, d)
    ensures c.cutmixAlpha > 0.0 && c.mixupAlpha <= 0.0 ==> UsesCutmix(c, d)
    ensures c.cutmixAlpha > 0.0 && c.mixupAlpha > 0.0 ==> (UsesCutmix(c, d) <==> d.coin < 0.5)
  {
  }

  /**
    Row `i`'s target: above the smoothing floor its own label has the weight `own` of what
    smoothing leaves, and its partner's label the rest.
   */
  ghost predicate Weighted(c: Config, targets: seq<nat>, soft: array2<real>, own: real)
    requires ValidConfig(c) && soft.Length0 == |targets|
    reads soft
  {
    forall i | 0 <= i < |targets| :: WeightedRow(c, targets, soft, i, own)
  }

  ghost predicate WeightedRow(c: Config, targets: seq<nat>, soft: array2<real>, i: nat, own: real)
    requires ValidConfig(c) && i < |targets| == soft.Length0
    reads soft
  {
    forall j | 0 <= j < soft.Length1 ::
      soft[i, j] == c.smoothing / c.numClasses as real
        + (1.0 - c.smoothing) * Shared(j == targets[i], j == targets[|targets| - 1 - i], own)
  }

  function Shared(isOwn: bool, isPartners: bool, own: real): real {
    (if isOwn then own else 0.0) + (if isPartners then 1.0 - own else 0.0)
  }

  lemma BlendsToShares(off: real, rest: real, isOwn: bool, isPartners: bool, lam: real)
    ensures lam * (if isOwn then rest + off else off) + (1.0 - lam) * (if isPartners then rest + off else off)
         == off + rest * Shared(isOwn, isPartners, lam)
  {
    assert lam * (rest + off) == lam * rest + lam * off;
    assert (1.0 - lam) * (rest + off) == (1.0 - lam) * rest + (1.0 - lam) * off;
    assert lam * off + (1.0 - lam) * off == off;
  }

  lemma MixIs(x: real, y: real, lam: real)
    ensures Mix(x, y, lam) == lam * x + (1.0 - lam) * y
  {
  }

  /** Row `i` of `soft` is row `i` of `plain` blended with its partner's. */
  ghost predicate BlendsRow(plain: array2<real>, soft: array2<real>, i: nat, lam: real)
    requires i < plain.Length0 == soft.Length0 && plain.Length1 == soft.Length1
    reads plain, soft
  {
    forall j | 0 <= j < plain.Length1 :: soft[i, j] == lam * plain[i, j] + (1.0 - lam) * plain[plain.Length0 - 1 - i, j]
  }

  lemma RowIsBlend(plain: array2<real>, soft: array2<real>, i: nat, lam: real)
    requires i < plain.Length0 == soft.Length0 && plain.Length1 == soft.Length1 && BlendsRow(plain, soft, i, lam)
    ensures Row(soft, i) == Blend(Row(plain, i), Row(plain, plain.Length0 - 1 - i), lam)
  {
    hide Mix;
    var k := plain.Length0 - 1 - i;
    forall j | 0 <= j < plain.Length1 ensures Row(soft, i)[j] == Mix(plain[i, j], plain[k, j], lam) {
      MixIs(plain[i, j], plain[k, j], lam);
    }
  }

  lemma RowIsWeighted(c: Config, targets: seq<nat>, plain: array2<real>, soft: array2<real>, i: nat, lam: real)
    requires ValidConfig(c) && i < |targets| == plain.Length0 == soft.Length0
    requires plain.Length1 == soft.Length1 == c.numClasses && BlendsRow(plain, soft, i, lam)
    requires forall k | 0 <= k < |targets| :: Row(plain, k) == Smoothed(c, targets[k])
    ensures WeightedRow(c, targets, soft, i, lam)
  {
    hide Shared;
    var k := |targets| - 1 - i;
    forall j | 0 <= j < c.numClasses
      ensures soft[i, j] == Off(c) + (1.0 - c.smoothing) * Shared(j == targets[i], j == targets[k], lam)
    {
      assert plain[i, j] == Row(plain, i)[j] && plain[k, j] == Row(plain, k)[j];
      BlendsToShares(Off(c), 1.0 - c.smoothing, j == targets[i], j == targets[k], lam);
    }
  }

  /** Two smoothed rows blended are a row of shares, and a probability vector. */
  lemma BlendedRow(c: Config, targets: seq<nat>, plain: array2<real>, soft: array2<real>, i: nat, lam: real)
    requires ValidConfig(c) && LabelsInRange(c, targets) && i < |targets| == plain.Length0 == soft.Length0
    requires plain.Length1 == soft.Length1 == c.numClasses && 0.0 <= lam <= 1.0 && BlendsRow(plain, soft, i, lam)
    requires forall k | 0 <= k < |targets| :: Row(plain, k) == Smoothed(c, targets[k])
    ensures Probability(Row(soft, i)) && WeightedRow(c, targets, soft, i, lam)
  {
    hide Row, Smoothed, Blend, Probability, BlendsRow, WeightedRow;
    SmoothedIsProbability(c, targets[i]);
    SmoothedIsProbability(c, targets[|targets| - 1 - i]);
    RowIsBlend(plain, soft, i, lam);
    BlendIsProbability(Smoothed(c, targets[i]), Smoothed(c, targets[|targets| - 1 - i]), lam);
    RowIsWeighted(c, targets, plain, soft, i, lam);
  }

  lemma PlainRow(c: Config, targets: seq<nat>, plain: array2<real>, i: nat)
    requires ValidConfig(c) && LabelsInRange(c, targets) && i < |targets| == plain.Length0
    requires plain.Length1 == c.numClasses && Row(plain, i) == Smoothed(c, targets[i])
    ensures Probability(Row(plain, i)) && WeightedRow(c, targets, plain, i, 1.0)
  {
    SmoothedIsProbability(c, targets[i]);
    var k := |targets| - 1 - i;
    forall j | 0 <= j < c.numClasses
      ensures plain[i, j] == Off(c) + (1.0 - c.smoothing) * Shared(j == targets[i], j == targets[k], 1.0)
    {
      assert plain[i, j] == Row(plain, i)[j];
    }
  }

  /** The fraction of an image's pixels that lie in the box. */
  ghost function ReplacedFraction(b: Box, height: nat, width: nat): real
    requires height > 0 && width > 0
  {
    |Replaced(b, height, width)| as real / (height * width) as real
  }

  /**
    __call__: every returned target row is a probability vector, whatever was drawn, in
    which the partner's label weighs what the image has of the partner: nothing, the
    fraction of pixels that CutMix replaced, or MixUp's 1 - lam.
   */
  method Call(c: Config, images: array3<real>, targets: seq<nat>, d: Draw)
    returns (mixed: array3<real>, soft: array2<real>)
    requires ValidConfig(c) && |targets| == images.Length0 && LabelsInRange(c, targets)
    requires images.Length1 > 0 && images.Length2 > 0 && ValidDraw(d, images.Length1, images.Length2)
    ensures soft.Length0 == |targets| && soft.Length1 == c.numClasses
    ensures forall i | 0 <= i < |targets| :: Probability(Row(soft, i))
    ensures d.skip >= c.prob ==> mixed == images && Weighted(c, targets, soft, 1.0)
    ensures d.skip < c.prob && UsesCutmix(c, d) ==>
      var b := CutmixBox(images.Length1, images.Length2, d);
      Spliced(mixed, images, b)
      && Weighted(c, targets, soft, 1.0 - ReplacedFraction(b, images.Length1, images.Length2))
    ensures d.skip < c.prob && !UsesCutmix(c, d) ==>
      BlendedFrom(mixed, images, d.lam) && Weighted(c, targets, soft, d.lam)
  {
    hide CutmixBox, Area, Corrected, Smoothed, Blend, Probability, Row, Spliced, BlendedFrom, Shared, Replaced,
      WeightedRow;
    var n := |targets|;
    var plain := Smooth(c, targets);
    if d.skip >= c.prob {
      forall i | 0 <= i < n ensures Probability(Row(plain, i)) && WeightedRow(c, targets, plain, i, 1.0) {
        PlainRow(c, targets, plain, i);
      }
      return images, plain;
    }
    var lam := d.lam;
    if UsesCutmix(c, d) {
      var box := CutmixBox(images.Length1, images.Length2, d);
      AreaWithin(images.Length1, images.Length2, d);
      CorrectionOnlyRaises(images.Length1, images.Length2, d);
      PartnerWeightIsPixelFraction(images.Length1, images.Length2, d);
      mixed := Splice(images, box);
      lam := Corrected(box, images.Length1, images.Length2);
    } else {
      mixed := BlendImages(images, lam);
    }
    soft := BlendTargets(plain, lam);
    forall i | 0 <= i < n ensures Probability(Row(soft, i)) && WeightedRow(c, targets, soft, i, lam) {
      BlendedRow(c, targets, plain, soft, i, lam);
    }
  }

  /**
    Pairing with the reversed batch gives every example a different partner exactly
    when the batch size is even: the middle of an odd batch is its own partner.
   */
  lemma PartnersDiffer(batch: nat)
    ensures (forall i: nat | i < batch :: Partner(batch, i) != i) <==> batch % 2 == 0
  {
    if batch % 2 == 1 {
      assert Partner(batch, batch / 2) == batch / 2;
    }
  }

  /** The example that flip(0) pairs with example `i`. */
  function Partner(batch: nat, i: nat): int {
    batch - 1 - i
  }
}
