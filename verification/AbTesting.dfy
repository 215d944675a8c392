/**
  Traffic splitting.  Weights and positions are exact reals here; a user's position
  is the first eight digest bytes of "experiment:user" as an integer below 2^64.
 */
module AbTesting {
  import opened Common
  import opened JsonValues

  const POSITIONS: nat := 0x1_0000_0000_0000_0000

  /** Annotations are not enforced: whatever a configuration file holds can be a name or a version. */
  datatype Variant = Variant(name: Json, modelVersion: Json, weight: real)

  datatype Experiment = Experiment(name: Json, variants: seq<Variant>, enabled: bool)

  datatype Invalid = WeightOutOfRange | NoVariants | WeightsDoNotSum | UnhashableName | DuplicateNames

  // ---------------------------------------------------------------- validation

  function Abs(x: real): real {
    if x >= 0.0 then x else -x
  }

  function MaxReal(x: real, y: real): real {
    if x >= y then x else y
  }

  /** math.isclose(total, 1.0, abs_tol=1e-6), whose rel_tol defaults to 1e-9. */
  predicate CloseToOne(total: real) {
    Abs(total - 1.0) <= MaxReal(0.000_000_001 * MaxReal(Abs(total), 1.0), 0.000_001)
  }

  /** The relative tolerance never decides: it exceeds the absolute one only for totals far from one. */
  lemma CloseToOneExactly(total: real)
    ensures CloseToOne(total) <==> 0.999_999 <= total <= 1.000_001
  {
  }

  /** The traffic share of the first `k` variants. */
  function Share(variants: seq<Variant>, k: nat): real
    requires k <= |variants|
  {
    if k == 0 then 0.0 else Share(variants, k - 1) + variants[k - 1].weight
  }

  predicate WeightsInRange(variants: seq<Variant>) {
    forall k | 0 <= k < |variants| :: 0.0 <= variants[k].weight <= 1.0
  }

  predicate NamesHashable(variants: seq<Variant>) {
    forall k | 0 <= k < |variants| :: Hashable(variants[k].name)
  }

  predicate DistinctNames(variants: seq<Variant>) {
    forall j, k | 0 <= j < k < |variants| :: variants[j].name != variants[k].name
  }

  /** Variant.__post_init__ for each variant, then Experiment.__post_init__. */
  function Make(name: Json, variants: seq<Variant>, enabled: bool): (r: Result<Experiment, Invalid>)
    ensures r.Ok? <==> Accepted(variants)
    ensures r.Ok? <==>
      && variants != [] && 0.999_999 <= Share(variants, |variants|) <= 1.000_001
      && (forall k | 0 <= k < |variants| :: variants[k].weight >= 0.0 && variants[k].weight <= 1.0)
      && (forall k | 0 <= k < |variants| :: !variants[k].name.List? && !variants[k].name.Object?)
      && (forall j, k | 0 <= j < |variants| && 0 <= k < |variants| :: variants[j].name == variants[k].name ==> j == k)
    ensures r.Ok? ==> r.value == Experiment(name, variants, enabled)
  {
    if !WeightsInRange(variants) then Err(WeightOutOfRange)
    else if variants == [] then Err(NoVariants)
    else if !CloseToOne(Share(variants, |variants|)) then Err(WeightsDoNotSum)
    else if !NamesHashable(variants) then Err(UnhashableName)
    else if !DistinctNames(variants) then Err(DuplicateNames)
    else Ok(Experiment(name, variants, enabled))
  }

  predicate Accepted(variants: seq<Variant>) {
    && variants != []
    && WeightsInRange(variants)
    && CloseToOne(Share(variants, |variants|))
    && NamesHashable(variants) && DistinctNames(variants)
  }

  // ---------------------------------------------------------------- assignment

  /** The variant a position in [0, 1) falls to: the first whose cumulative share exceeds it. */
  function FallsTo(variants: seq<Variant>, position: real, from: nat): (k: nat)
    requires from < |variants|
    ensures from <= k < |variants|
    decreases |variants| - from
  {
    if position < Share(variants, from + 1) || from == |variants| - 1 then from
    else FallsTo(variants, position, from + 1)
  }

  function Position(p: nat): real {
    p as real / POSITIONS as real
  }

  function AssignedIndex(e: Experiment, p: nat): (k: nat)
    requires e.variants != []
    ensures k < |e.variants|
  {
    if !e.enabled then 0 else FallsTo(e.variants, Position(p), 0)
  }

  /** Past the cumulative share of each of the first `n` variants. */
  predicate PastShares(variants: seq<Variant>, position: real, n: nat)
    requires n <= |variants|
  {
    n == 0 || (PastShares(variants, position, n - 1) && position >= Share(variants, n))
  }

  lemma {:induction false} PastSharesAt(variants: seq<Variant>, position: real, n: nat, k: nat)
    requires 0 < k <= n <= |variants| && position < Share(variants, k)
    ensures !PastShares(variants, position, n)
    decreases n
  {
    if k < n {
      PastSharesAt(variants, position, n - 1, k);
    }
  }

  /** Hashing "name:user" raises UnicodeEncodeError; anything but such a text formats to one UTF-8 can encode. */
  predicate HashRaises(e: Experiment) {
    e.enabled && e.name.Garbled?
  }

  /** assign, where `p` is the caller's position if the name can be hashed; None is the exception. */
  method Assign(e: Experiment, p: nat) returns (v: Option<Variant>, fallback: bool)
    requires e.variants != []
    ensures v == if HashRaises(e) then None else Some(e.variants[AssignedIndex(e, p)])
    ensures fallback <==> e.enabled && !HashRaises(e) && PastShares(e.variants, Position(p), |e.variants|)
  {
    if !e.enabled {
      return Some(e.variants[0]), false;
    }
    if e.name.Garbled? {
      return None, false;
    }
    var position := Position(p);
    var cumulative := 0.0;
    var i := 0;
    while i < |e.variants|
      invariant 0 <= i <= |e.variants| && cumulative == Share(e.variants, i)
      invariant PastShares(e.variants, position, i)
      invariant i < |e.variants| ==> FallsTo(e.variants, position, 0) == FallsTo(e.variants, position, i)
      invariant i == |e.variants| ==> FallsTo(e.variants, position, 0) == i - 1
    {
      cumulative := cumulative + e.variants[i].weight;
      if position < cumulative {
        PastSharesAt(e.variants, position, |e.variants|, i + 1);
        return Some(e.variants[i]), false;
      }
      i := i + 1;
    }
    return Some(e.variants[|e.variants| - 1]), true;
  }

  lemma {:induction false} ShareMonotone(variants: seq<Variant>, j: nat, k: nat)
    requires WeightsInRange(variants) && j <= k <= |variants|
    ensures 0.0 <= Share(variants, j) <= Share(variants, k)
    decreases k
  {
    if k > 0 {
      if j < k {
        ShareMonotone(variants, j, k - 1);
      } else {
        ShareMonotone(variants, j - 1, k - 1);
      }
    }
  }

  /** A variant gets the half-open slice between its neighbours' cumulative shares; the last gets the rest. */
  lemma {:induction false} SliceOf(variants: seq<Variant>, position: real, from: nat, k: nat)
    requires WeightsInRange(variants) && from <= k < |variants|
    requires from == 0 ==> position >= 0.0
    requires position >= Share(variants, from)
    ensures FallsTo(variants, position, from) == k
       <==> Share(variants, k) <= position && (position < Share(variants, k + 1) || k == |variants| - 1)
    decreases |variants| - from
  {
    if position < Share(variants, from + 1) || from == |variants| - 1 {
      if k > from {
        ShareMonotone(variants, from + 1, k);
      }
    } else {
      if k == from {
      } else {
        SliceOf(variants, position, from + 1, k);
      }
    }
  }

  /** The fallback after the loop is taken exactly by positions at or past the total weight. */
  lemma {:induction false} FallbackExactly(variants: seq<Variant>, position: real, n: nat)
    requires n <= |variants| && WeightsInRange(variants) && position >= 0.0
    ensures PastShares(variants, position, n) <==> position >= Share(variants, n)
  {
    if n > 0 {
      FallbackExactly(variants, position, n - 1);
      ShareMonotone(variants, n - 1, n);
    }
  }

  /** With weights summing to one no position reaches the fallback. */
  lemma FallbackUnreachable(variants: seq<Variant>, p: nat)
    requires variants != [] && WeightsInRange(variants) && Share(variants, |variants|) == 1.0 && p < POSITIONS
    ensures !PastShares(variants, Position(p), |variants|)
  {
    FallbackExactly(variants, Position(p), |variants|);
  }

  // ------------------------------------------------------------------ counting

  /** How many of the 2^64 positions lie below the share `c`. */
  function Below(c: real): nat
    requires c >= 0.0
  {
    if c >= 1.0 then POSITIONS else -((-(c * POSITIONS as real)).Floor)
  }

  lemma BelowExactly(c: real, p: nat)
    requires c >= 0.0 && p < POSITIONS
    ensures Position(p) < c <==> p < Below(c)
    ensures Below(c) <= POSITIONS
  {
    assert (Position(p) < c) <==> (p as real < c * POSITIONS as real);
  }

  /** The positions that go to variant `k`. */
  ghost function PositionsOf(variants: seq<Variant>, k: nat): set<nat>
    requires variants != []
  {
    set p: nat | p < POSITIONS && FallsTo(variants, Position(p), 0) == k
  }

  ghost function Interval(first: nat, end: nat): (s: set<nat>)
    ensures forall p: nat :: p in s <==> first <= p < end
    decreases end - first
  {
    if end <= first then {} else Interval(first, end - 1) + {end - 1}
  }

  lemma {:induction false} RangeSize(s: set<nat>, first: nat, end: nat)
    requires first <= end && forall p: nat :: p in s <==> first <= p < end
    ensures |s| == end - first
    decreases end
  {
    if first == end {
      assert s == {};
    } else {
      RangeSize(s - {end - 1}, first, end - 1);
    }
  }

  lemma IntervalSize(first: nat, end: nat)
    requires first <= end
    ensures |Interval(first, end)| == end - first
  {
    RangeSize(Interval(first, end), first, end);
  }

  /** Where variant `k`'s positions end. */
  function SliceEnd(variants: seq<Variant>, k: nat): nat
    requires k < |variants| && WeightsInRange(variants)
  {
    if k == |variants| - 1 then POSITIONS
    else
      ShareMonotone(variants, 0, k + 1);
      Below(Share(variants, k + 1))
  }

  lemma PositionsAreInterval(variants: seq<Variant>, k: nat)
    requires k < |variants| && WeightsInRange(variants)
    ensures Share(variants, k) >= 0.0
    ensures PositionsOf(variants, k) == Interval(Below(Share(variants, k)), SliceEnd(variants, k))
    ensures Below(Share(variants, k)) <= SliceEnd(variants, k) <= POSITIONS
  {
    ShareMonotone(variants, 0, k);
    ShareMonotone(variants, k, k + 1);
    BelowBounds(Share(variants, k), 0.0);
    BelowMonotone(Share(variants, k), Share(variants, k + 1));
    forall p: nat ensures p in PositionsOf(variants, k)
                     <==> p in Interval(Below(Share(variants, k)), SliceEnd(variants, k))
    {
      if p < POSITIONS {
        assert Position(p) >= 0.0;
        SliceOf(variants, Position(p), 0, k);
        BelowExactly(Share(variants, k), p);
        BelowExactly(Share(variants, k + 1), p);
      }
    }
  }

  lemma BelowMonotone(c: real, d: real)
    requires 0.0 <= c <= d
    ensures Below(c) <= Below(d)
  {
    BelowBounds(c, 0.0);
    BelowBounds(d, 0.0);
    if c < 1.0 && d < 1.0 {
      assert c * POSITIONS as real <= d * POSITIONS as real;
    }
  }

  /** Rounding up moves a boundary by less than one position; capping at one, by the excess. */
  lemma BelowBounds(c: real, excess: real)
    requires 0.0 <= c && excess >= 0.0
    ensures Below(c) <= POSITIONS
    ensures Below(c) as real < c * POSITIONS as real + 1.0
    ensures c <= 1.0 + excess ==> c * POSITIONS as real - excess * POSITIONS as real <= Below(c) as real
  {
    if c < 1.0 {
      var f := (-(c * POSITIONS as real)).Floor;
      assert f as real <= -(c * POSITIONS as real) < f as real + 1.0;
      assert c * POSITIONS as real < POSITIONS as real;
      assert excess * POSITIONS as real >= 0.0;
    } else {
      assert c * POSITIONS as real >= POSITIONS as real;
      if c <= 1.0 + excess {
        assert (c - excess) * POSITIONS as real <= POSITIONS as real;
      }
    }
  }

  /**
    Of all 2^64 positions, variant `k` receives its weight's worth up to less than one,
    plus at most the amount by which the weights miss a total of one.
   */
  lemma TrafficIsProportional(variants: seq<Variant>, k: nat)
    requires k < |variants| && WeightsInRange(variants)
    ensures var miss := Abs(Share(variants, |variants|) - 1.0);
      var expected := variants[k].weight * POSITIONS as real;
      Abs(|PositionsOf(variants, k)| as real - expected) < 1.0 + miss * POSITIONS as real
  {
    hide FallsTo, Below, Interval, PositionsOf, WeightsInRange;
    PositionsAreInterval(variants, k);
    IntervalSize(Below(Share(variants, k)), SliceEnd(variants, k));
    var total := Share(variants, |variants|);
    var excess := MaxReal(0.0, total - 1.0);
    ShareMonotone(variants, k, k + 1);
    ShareMonotone(variants, k + 1, |variants|);
    ShareMonotone(variants, 0, k + 1);
    BelowBounds(Share(variants, k), excess);
    BelowBounds(Share(variants, k + 1), excess);
    SliceWidth(Share(variants, k), variants[k].weight, total);
  }

  /** The arithmetic of one slice, for an inner variant and for the last. */
  lemma SliceWidth(c: real, w: real, total: real)
    requires 0.0 <= c <= c + w <= total && w >= 0.0
    ensures var bound := 1.0 + Abs(total - 1.0) * POSITIONS as real;
      && Abs((Below(c + w) - Below(c)) as real - w * POSITIONS as real) < bound
      && (c + w == total ==> Abs((POSITIONS - Below(c)) as real - w * POSITIONS as real) < bound)
  {
    var n := POSITIONS as real;
    var excess := MaxReal(0.0, total - 1.0);
    BelowBounds(c, excess);
    BelowBounds(c + w, excess);
    assert (c + w) * n == c * n + w * n;
    assert excess * n <= Abs(total - 1.0) * n;
    if c + w == total {
      assert (total - 1.0) * n == c * n + w * n - n;
      assert total >= 1.0 ==> Abs(total - 1.0) * n == (total - 1.0) * n;
      assert total < 1.0 ==> Abs(total - 1.0) * n == -((total - 1.0) * n);
    }
  }

  // --------------------------------------------------------------- reweighting

  /** No hash position goes to an earlier variant afterwards. */
  ghost predicate NobodyMovesEarlier(before: seq<Variant>, after: seq<Variant>)
    requires before != [] && after != []
  {
    forall p: nat | p < POSITIONS :: FallsTo(before, Position(p), 0) <= FallsTo(after, Position(p), 0)
  }

  /** No prefix of the variants ends at a later position afterwards. */
  predicate NoPrefixGrows(before: seq<Variant>, after: seq<Variant>)
    requires |before| == |after| && WeightsInRange(before) && WeightsInRange(after)
  {
    forall k: nat | k < |before| :: SliceEnd(after, k) <= SliceEnd(before, k)
  }

  /** The variant a position goes to, by integers alone: the first slice that ends after it. */
  lemma FallsBySliceEnd(variants: seq<Variant>, p: nat, k: nat)
    requires k < |variants| && WeightsInRange(variants) && p < POSITIONS
    ensures FallsTo(variants, Position(p), 0) <= k <==> p < SliceEnd(variants, k)
  {
    var j := FallsTo(variants, Position(p), 0);
    assert Position(p) >= 0.0;
    SliceOf(variants, Position(p), 0, j);
    ShareMonotone(variants, 0, k + 1);
    BelowExactly(Share(variants, k + 1), p);
    if j <= k {
      ShareMonotone(variants, j + 1, k + 1);
    } else {
      ShareMonotone(variants, k + 1, j);
    }
  }

  /** Nobody moves to an earlier variant exactly when no prefix of the weights gains a position. */
  lemma ReweightingMovesLaterOnly(before: seq<Variant>, after: seq<Variant>)
    requires before != [] && |before| == |after| && WeightsInRange(before) && WeightsInRange(after)
    ensures NoPrefixGrows(before, after) <==> NobodyMovesEarlier(before, after)
  {
    hide FallsTo, SliceEnd, WeightsInRange;
    if NoPrefixGrows(before, after) {
      forall p: nat | p < POSITIONS ensures FallsTo(before, Position(p), 0) <= FallsTo(after, Position(p), 0) {
        var k := FallsTo(after, Position(p), 0);
        FallsBySliceEnd(after, p, k);
        FallsBySliceEnd(before, p, k);
      }
    } else {
      var k: nat :| k < |before| && SliceEnd(after, k) > SliceEnd(before, k);
      var p := SliceEnd(before, k);
      SliceEndBounded(after, k);
      FallsBySliceEnd(before, p, k);
      FallsBySliceEnd(after, p, k);
    }
  }

  lemma SliceEndBounded(variants: seq<Variant>, k: nat)
    requires k < |variants| && WeightsInRange(variants)
    ensures SliceEnd(variants, k) <= POSITIONS
  {
    ShareMonotone(variants, 0, k + 1);
    BelowBounds(Share(variants, k + 1), 0.0);
  }

  /** A smaller or equal share at every prefix is enough. */
  lemma SmallerPrefixesMoveLaterOnly(before: seq<Variant>, after: seq<Variant>)
    requires before != [] && |before| == |after| && WeightsInRange(before) && WeightsInRange(after)
    requires forall k | 0 < k < |before| :: Share(after, k) <= Share(before, k)
    ensures NobodyMovesEarlier(before, after)
  {
    forall k: nat | k < |before| ensures SliceEnd(after, k) <= SliceEnd(before, k) {
      if k < |before| - 1 {
        ShareMonotone(after, 0, k + 1);
        BelowMonotone(Share(after, k + 1), Share(before, k + 1));
      }
    }
    ReweightingMovesLaterOnly(before, after);
  }

  /** With two arms, raising the challenger's weight moves users only from control to challenger. */
  lemma RampUp(before: Experiment, after: Experiment, p: nat)
    requires |before.variants| == 2 && |after.variants| == 2 && before.enabled && after.enabled
    requires WeightsInRange(before.variants) && WeightsInRange(after.variants)
    requires after.variants[0].weight <= before.variants[0].weight && p < POSITIONS
    ensures AssignedIndex(before, p) != AssignedIndex(after, p)
        ==> AssignedIndex(before, p) == 0 && AssignedIndex(after, p) == 1
  {
    assert Share(before.variants, 1) == Share(before.variants, 0) + before.variants[0].weight;
    assert Share(after.variants, 1) == Share(after.variants, 0) + after.variants[0].weight;
    SmallerPrefixesMoveLaterOnly(before.variants, after.variants);
  }
}
