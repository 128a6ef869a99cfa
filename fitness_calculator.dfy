/**
 * `FitnessCalculator`: the score of a layout. Overlaps between processes, crossings of the site
 * boundary and intrusions into fixed zones are fatal: a layout with any of them scores the
 * negated weighted sum of those three penalties. Every other layout scores a base of 1000 plus
 * weighted bonuses (closeness ratings, sequence flow, site utilisation, compactness, road
 * access) minus a weighted hazard penalty, and never less than 0. So feasible and infeasible
 * layouts never share a score.
 */
module FitnessCalculator {
  import opened Wrappers
  import opened Collect
  import opened Geometry
  import opened Text
  import LayoutGenerator
  import ConstraintHandler

  type Weights = LayoutGenerator.Weights

  /**
   * The calculator's configuration: the adjacency ratings, the `hazard_factors` entry of each
   * space (None when the space has no such key), the fixed zones and the site size. None of it
   * changes after construction.
   */
  datatype Calculator = Calculator(adjacencyWeights: Weights, spaces: map<string, Option<seq<string>>>,
                                   zones: seq<Rect>, width: real, height: real)

  // ---------------------------------------------------------------- weights

  const BaseScore: real := 1000.0
  const OverlapWeight: real := 2000.0
  const BoundaryWeight: real := 1000.0
  const FixedZoneWeight: real := 1500.0
  const AdjacencyWeight: real := 500.0
  const SequenceWeight: real := 300.0
  const HazardWeight: real := 200.0
  const UtilizationWeight: real := 150.0
  const CompactnessWeight: real := 100.0
  const AccessibilityWeight: real := 100.0

  // ---------------------------------------------------------------- overlap penalty

  /** What the pair (a, b) adds to the overlap penalty: its overlap area, if it overlaps. */
  function OverlapTerm(a: Rect, b: Rect): seq<real>
  {
    if Overlaps(a, b) then [OverlapArea(a, b)] else []
  }

  function OverlapTerms(): (Rect, Rect) -> seq<real>
  {
    (a: Rect, b: Rect) => OverlapTerm(a, b)
  }

  /** `_calculate_overlap_penalty`: the summed overlap area of all pairs i < j. */
  function OverlapPenalty(layout: seq<Rect>): real
  {
    Sum(Pairs(layout, OverlapTerms()))
  }

  /** All rectangles have positive width and height, as the loader demands of every space. */
  predicate AllPositive(rs: seq<Rect>)
  {
    forall k :: 0 <= k < |rs| ==> PositiveSize(rs[k])
  }

  predicate AllNonNegative(rs: seq<Rect>)
  {
    forall k :: 0 <= k < |rs| ==> NonNegativeSize(rs[k])
  }

  /** The loops of `_calculate_overlap_penalty`. */
  method CalculateOverlapPenalty(layout: seq<Rect>) returns (penalty: real)
    ensures penalty == OverlapPenalty(layout)
  {
    penalty := 0.0;
    for i := 0 to |layout|
      invariant penalty == Sum(Rows(layout, i, OverlapTerms()))
    {
      var row := OverlapRow(layout, i);
      SumRowsStep(layout, i, OverlapTerms());
      penalty := penalty + row;
    }
  }

  /** The inner loop `for rect2 in layout[i + 1:]`. */
  method OverlapRow(layout: seq<Rect>, i: nat) returns (row: real)
    requires i < |layout|
    ensures row == Sum(RowTo(layout, i, |layout|, OverlapTerms()))
  {
    row := 0.0;
    for j := i + 1 to |layout|
      invariant row == Sum(RowTo(layout, i, j, OverlapTerms()))
    {
      var rect1, rect2 := layout[i], layout[j];
      SumRowToStep(layout, i, j, OverlapTerms());
      if Overlaps(rect1, rect2) {
        SumSingle(OverlapArea(rect1, rect2));
        row := row + OverlapArea(rect1, rect2);
      }
    }
  }

  /**
   * The overlap penalty is never negative and is 0 for a layout without overlaps; for
   * rectangles of positive size it is 0 exactly when no two of them overlap.
   */
  lemma {:induction false} OverlapPenaltySpec(layout: seq<Rect>)
    ensures OverlapPenalty(layout) >= 0.0
    ensures PairwiseDisjoint(layout) ==> OverlapPenalty(layout) == 0.0
    ensures AllPositive(layout) ==> (OverlapPenalty(layout) == 0.0 <==> PairwiseDisjoint(layout))
  {
    var f := OverlapTerms();
    var terms := Pairs(layout, f);
    forall v | v in terms
      ensures v >= 0.0 && (AllPositive(layout) ==> v > 0.0)
    {
      PairsMember(layout, f, v);
      var a, b :| 0 <= a < b < |layout| && v in f(layout[a], layout[b]);
    }
    assert forall k :: 0 <= k < |terms| ==> terms[k] in terms;
    SumNonNegative(terms);
    PairsEmpty(layout, f);
    if AllPositive(layout) {
      SumOfPositives(terms);
    }
  }

  // ---------------------------------------------------------------- boundary penalty

  /**
   * The area-like excess of one rectangle over the site: each side's overflow times the
   * rectangle's extent along that side.
   */
  function Excess(c: Calculator, r: Rect): real
  {
    var xOver, yOver := Max(0.0, Right(r) - c.width), Max(0.0, Bottom(r) - c.height);
    var xUnder, yUnder := Max(0.0, -r.x), Max(0.0, -r.y);
    xOver * r.h + yOver * r.w + xUnder * r.h + yUnder * r.w
  }

  /** A rectangle of non-negative size has no negative excess; one of positive size has none iff it lies inside the site. */
  lemma {:induction false} ExcessSpec(c: Calculator, r: Rect)
    ensures NonNegativeSize(r) ==> Excess(c, r) >= 0.0
    ensures PositiveSize(r) ==> (Excess(c, r) == 0.0 <==> InBounds(r, c.width, c.height))
  {
    var xOver, yOver := Max(0.0, Right(r) - c.width), Max(0.0, Bottom(r) - c.height);
    var xUnder, yUnder := Max(0.0, -r.x), Max(0.0, -r.y);
    if NonNegativeSize(r) {
      assert xOver * r.h >= 0.0 && yOver * r.w >= 0.0 && xUnder * r.h >= 0.0 && yUnder * r.w >= 0.0;
    }
    if PositiveSize(r) && !InBounds(r, c.width, c.height) {
      assert xOver * r.h > 0.0 || yOver * r.w > 0.0 || xUnder * r.h > 0.0 || yUnder * r.w > 0.0;
    }
  }

  /** `_calculate_boundary_penalty` over the first n rectangles. */
  function BoundaryPenaltyTo(c: Calculator, layout: seq<Rect>, n: nat): real
    requires n <= |layout|
  {
    if n == 0 then 0.0 else BoundaryPenaltyTo(c, layout, n - 1) + Excess(c, layout[n - 1])
  }

  function BoundaryPenalty(c: Calculator, layout: seq<Rect>): real
  {
    BoundaryPenaltyTo(c, layout, |layout|)
  }

  method CalculateBoundaryPenalty(c: Calculator, layout: seq<Rect>) returns (penalty: real)
    ensures penalty == BoundaryPenalty(c, layout)
  {
    penalty := 0.0;
    for k := 0 to |layout|
      invariant penalty == BoundaryPenaltyTo(c, layout, k)
    {
      var r := layout[k];
      var xOver := Max(0.0, r.x + r.w - c.width);
      var yOver := Max(0.0, r.y + r.h - c.height);
      var xUnder := Max(0.0, -r.x);
      var yUnder := Max(0.0, -r.y);
      var overflow := xOver * r.h + yOver * r.w + xUnder * r.h + yUnder * r.w;
      penalty := penalty + overflow;
    }
  }

  /**
   * For rectangles of non-negative size the penalty is never negative and is 0 when all lie
   * inside the site; for rectangles of positive size it is 0 exactly when all lie inside.
   */
  lemma {:induction false} BoundaryPenaltySpec(c: Calculator, layout: seq<Rect>, n: nat)
    requires n <= |layout|
    ensures AllNonNegative(layout) ==> BoundaryPenaltyTo(c, layout, n) >= 0.0
    ensures AllPositive(layout) ==>
      (BoundaryPenaltyTo(c, layout, n) == 0.0 <==> forall k :: 0 <= k < n ==> InBounds(layout[k], c.width, c.height))
  {
    if n > 0 {
      BoundaryPenaltySpec(c, layout, n - 1);
      ExcessSpec(c, layout[n - 1]);
      if AllPositive(layout) {
        assert NonNegativeSize(layout[n - 1]);
        assert forall k :: 0 <= k < n - 1 ==> NonNegativeSize(layout[k]);
        assert AllNonNegative(layout);
      }
    }
  }

  // ---------------------------------------------------------------- fixed-zone penalty

  /** What a rectangle and a zone add to the fixed-zone penalty: twice their overlap area. */
  function ZoneTerm(r: Rect, z: Rect): seq<real>
  {
    if Overlaps(r, z) then [OverlapArea(r, z) * 2.0] else []
  }

  function ZoneTerms(): (Rect, Rect) -> seq<real>
  {
    (r: Rect, z: Rect) => ZoneTerm(r, z)
  }

  /** `_calculate_fixed_zone_penalty`: twice the summed overlap with the zones. */
  function FixedZonePenalty(c: Calculator, layout: seq<Rect>): real
  {
    Sum(Product(layout, c.zones, ZoneTerms()))
  }

  method CalculateFixedZonePenalty(c: Calculator, layout: seq<Rect>) returns (penalty: real)
    ensures penalty == FixedZonePenalty(c, layout)
  {
    penalty := 0.0;
    for i := 0 to |layout|
      invariant penalty == Sum(ProductRows(layout, c.zones, i, ZoneTerms()))
    {
      var row := ZoneRow(layout[i], c.zones);
      SumProductRowsStep(layout, c.zones, i, ZoneTerms());
      penalty := penalty + row;
    }
  }

  /** The inner loop over the fixed zones for one rectangle. */
  method ZoneRow(rect: Rect, zones: seq<Rect>) returns (row: real)
    ensures row == Sum(Across(rect, zones, |zones|, ZoneTerms()))
  {
    row := 0.0;
    for j := 0 to |zones|
      invariant row == Sum(Across(rect, zones, j, ZoneTerms()))
    {
      ZoneStep(rect, zones, j);
      if Overlaps(rect, zones[j]) {
        row := row + OverlapArea(rect, zones[j]) * 2.0;
      }
    }
  }

  /** One more zone adds twice its overlap with r, if they overlap. */
  lemma {:induction false} ZoneStep(r: Rect, zones: seq<Rect>, j: nat)
    requires j < |zones|
    ensures Sum(Across(r, zones, j + 1, ZoneTerms())) ==
      Sum(Across(r, zones, j, ZoneTerms())) + if Overlaps(r, zones[j]) then OverlapArea(r, zones[j]) * 2.0 else 0.0
  {
    SumAcrossStep(r, zones, j, ZoneTerms());
    if Overlaps(r, zones[j]) {
      SumSingle(OverlapArea(r, zones[j]) * 2.0);
    }
  }

  /** No rectangle of the layout overlaps a zone. */
  predicate ClearOfZones(c: Calculator, layout: seq<Rect>)
  {
    forall k, z :: 0 <= k < |layout| && 0 <= z < |c.zones| ==> !Overlaps(layout[k], c.zones[z])
  }

  /**
   * The fixed-zone penalty is never negative and is 0 when no rectangle meets a zone; when
   * rectangles and zones all have positive size it is 0 exactly then.
   */
  lemma {:induction false} FixedZonePenaltySpec(c: Calculator, layout: seq<Rect>)
    ensures FixedZonePenalty(c, layout) >= 0.0
    ensures ClearOfZones(c, layout) ==> FixedZonePenalty(c, layout) == 0.0
    ensures AllPositive(layout) && AllPositive(c.zones) ==>
      (FixedZonePenalty(c, layout) == 0.0 <==> ClearOfZones(c, layout))
  {
    var f := ZoneTerms();
    var terms := Product(layout, c.zones, f);
    forall v | v in terms
      ensures v >= 0.0 && (AllPositive(layout) && AllPositive(c.zones) ==> v > 0.0)
    {
      var a, b := ProductWitness(layout, c.zones, f, v);
    }
    assert forall k :: 0 <= k < |terms| ==> terms[k] in terms;
    SumNonNegative(terms);
    ProductEmpty(layout, c.zones, f);
    if AllPositive(layout) && AllPositive(c.zones) {
      SumOfPositives(terms);
    }
  }

  // ---------------------------------------------------------------- adjacency fitness

  /** What the pair (a, b) adds: the closeness-rating score at the rating found under either key order. */
  function AdjacencyTerms(aw: Weights): (Rect, Rect) -> seq<real>
  {
    (a: Rect, b: Rect) => [LayoutGenerator.PairScore(aw, a, b)]
  }

  /** `_calculate_adjacency_fitness`: the summed rating scores of all pairs i < j. */
  function AdjacencyFitness(c: Calculator, layout: seq<Rect>): real
  {
    Sum(Pairs(layout, AdjacencyTerms(c.adjacencyWeights)))
  }

  method CalculateAdjacencyFitness(c: Calculator, layout: seq<Rect>) returns (score: real)
    ensures score == AdjacencyFitness(c, layout)
  {
    var aw := c.adjacencyWeights;
    score := 0.0;
    for i := 0 to |layout|
      invariant score == Sum(Rows(layout, i, AdjacencyTerms(aw)))
    {
      var row := AdjacencyRow(aw, layout, i);
      AdjacencyRowsStep(aw, layout, i);
      score := score + row;
    }
  }

  /** One more row adds that row's total. */
  lemma {:induction false} AdjacencyRowsStep(aw: Weights, layout: seq<Rect>, i: nat)
    requires i < |layout|
    ensures Sum(Rows(layout, i + 1, AdjacencyTerms(aw))) ==
      Sum(Rows(layout, i, AdjacencyTerms(aw))) + AdjacencyRowSum(aw, layout, i, |layout|)
  {
    SumRowsStep(layout, i, AdjacencyTerms(aw));
  }

  /** What the pairs (i, k), i < k < j, add: the inner loop's running total. */
  function AdjacencyRowSum(aw: Weights, layout: seq<Rect>, i: nat, j: nat): real
    requires i < |layout| && j <= |layout|
  {
    Sum(RowTo(layout, i, j, AdjacencyTerms(aw)))
  }

  /** The inner loop over the rectangles after the i-th. */
  method AdjacencyRow(aw: Weights, layout: seq<Rect>, i: nat) returns (row: real)
    requires i < |layout|
    ensures row == AdjacencyRowSum(aw, layout, i, |layout|)
  {
    row := 0.0;
    for j := i + 1 to |layout|
      invariant row == AdjacencyRowSum(aw, layout, i, j)
    {
      var score := PairAdjacency(aw, layout, i, j);
      row := row + score;
    }
  }

  /**
   * The body of the inner loop: look the pair's rating up under either key order, defaulting to
   * U with a gap of 100, and score it; that score is what the pair adds to its row.
   */
  method PairAdjacency(aw: Weights, layout: seq<Rect>, i: nat, j: nat) returns (score: real)
    requires i < j < |layout|
    ensures AdjacencyRowSum(aw, layout, i, j + 1) == AdjacencyRowSum(aw, layout, i, j) + score
  {
    var rect1, rect2 := layout[i], layout[j];
    var (weight, gap) := LayoutGenerator.PairRating(aw, rect1.id, rect2.id);
    score := AdjacencyScore(rect1, rect2, weight, gap);
    AdjacencyRowStep(aw, layout, i, j);
  }

  /** One more pair of the row adds its rating score. */
  lemma {:induction false} AdjacencyRowStep(aw: Weights, layout: seq<Rect>, i: nat, j: nat)
    requires i < j < |layout|
    ensures Sum(RowTo(layout, i, j + 1, AdjacencyTerms(aw))) ==
      Sum(RowTo(layout, i, j, AdjacencyTerms(aw))) + LayoutGenerator.PairScore(aw, layout[i], layout[j])
  {
    SumRowToStep(layout, i, j, AdjacencyTerms(aw));
    SumSingle(LayoutGenerator.PairScore(aw, layout[i], layout[j]));
  }

  /** The rating of the pair (a, b) as the loop looks it up. */
  function RatingOf(c: Calculator, a: Rect, b: Rect): int
  {
    LayoutGenerator.PairRating(c.adjacencyWeights, a.id, b.id).0
  }

  /** One pair scores at most 300; at least 0 unless rated X; and 50 when neither key order has an entry. */
  lemma {:induction false} PairScoreBounds(aw: Weights, a: Rect, b: Rect)
    ensures LayoutGenerator.PairScore(aw, a, b) <= 300.0
    ensures LayoutGenerator.PairRating(aw, a.id, b.id).0 != 0 ==> LayoutGenerator.PairScore(aw, a, b) >= 0.0
    ensures LayoutGenerator.PairKey(a.id, b.id) !in aw && LayoutGenerator.PairKey(b.id, a.id) !in aw ==>
      LayoutGenerator.PairScore(aw, a, b) == 50.0
  {
    var (w, g) := LayoutGenerator.PairRating(aw, a.id, b.id);
    assert LayoutGenerator.PairScore(aw, a, b) == SlpScore(w, CenterDistance(a, b), g);
  }

  /**
   * Each of the n (n - 1) / 2 pairs adds at most 300; without an X rating no pair adds a
   * negative amount; and if no pair has a rating entry every pair is rated U and adds 50.
   */
  lemma {:induction false} AdjacencyFitnessBounds(c: Calculator, layout: seq<Rect>)
    ensures AdjacencyFitness(c, layout) <= 150.0 * (|layout| * (|layout| - 1)) as real
    ensures (forall a, b :: 0 <= a < b < |layout| ==> RatingOf(c, layout[a], layout[b]) != 0) ==>
      AdjacencyFitness(c, layout) >= 0.0
    ensures (forall a, b :: 0 <= a < b < |layout| ==>
               LayoutGenerator.PairKey(layout[a].id, layout[b].id) !in c.adjacencyWeights &&
               LayoutGenerator.PairKey(layout[b].id, layout[a].id) !in c.adjacencyWeights) ==>
      AdjacencyFitness(c, layout) == 25.0 * (|layout| * (|layout| - 1)) as real
  {
    var f := AdjacencyTerms(c.adjacencyWeights);
    var terms := Pairs(layout, f);
    PairsCount(layout, f);
    forall v | v in terms
      ensures v <= 300.0
      ensures (forall a, b :: 0 <= a < b < |layout| ==> RatingOf(c, layout[a], layout[b]) != 0) ==> v >= 0.0
      ensures (forall a, b :: 0 <= a < b < |layout| ==>
                 LayoutGenerator.PairKey(layout[a].id, layout[b].id) !in c.adjacencyWeights &&
                 LayoutGenerator.PairKey(layout[b].id, layout[a].id) !in c.adjacencyWeights) ==> v == 50.0
    {
      PairsMember(layout, f, v);
      var a, b :| 0 <= a < b < |layout| && v in f(layout[a], layout[b]);
      PairScoreBounds(c.adjacencyWeights, layout[a], layout[b]);
    }
    SumAtMost(terms, 300.0);
    assert 300.0 * |terms| as real == 150.0 * (|layout| * (|layout| - 1)) as real;
    if forall a, b :: 0 <= a < b < |layout| ==> RatingOf(c, layout[a], layout[b]) != 0 {
      SumAtLeast(terms, 0.0);
    }
    if forall a, b :: 0 <= a < b < |layout| ==>
         LayoutGenerator.PairKey(layout[a].id, layout[b].id) !in c.adjacencyWeights &&
         LayoutGenerator.PairKey(layout[b].id, layout[a].id) !in c.adjacencyWeights {
      SumAtMost(terms, 50.0);
      SumAtLeast(terms, 50.0);
      assert 50.0 * |terms| as real == 25.0 * (|layout| * (|layout| - 1)) as real;
    }
  }

  // ---------------------------------------------------------------- sequence bonus

  /** The length the step (dx, dy) is divided by: its length, but at least 1. */
  function UnitLength(dx: real, dy: real): (len: real)
    ensures len >= 1.0
  {
    Max(1.0, Hypot(dx, dy))
  }

  /** The step (dx, dy) scaled to length 1, or left as it is when it is shorter than 1. */
  function UnitX(dx: real, dy: real): real
  {
    dx / UnitLength(dx, dy)
  }

  function UnitY(dx: real, dy: real): real
  {
    dy / UnitLength(dx, dy)
  }

  /**
   * `_calculate_direction_consistency`: the cosine of the angle between the steps a -> b and
   * b -> c (taken between top-left corners), mapped from [-1, 1] to [0, 1].
   */
  function DirectionConsistency(a: Rect, b: Rect, c: Rect): real
  {
    Consistency(b.x - a.x, b.y - a.y, c.x - b.x, c.y - b.y)
  }

  /** The consistency of the step (dx1, dy1) followed by the step (dx2, dy2). */
  function Consistency(dx1: real, dy1: real, dx2: real, dy2: real): real
  {
    Cosine(UnitX(dx1, dy1), UnitY(dx1, dy1), UnitX(dx2, dy2), UnitY(dx2, dy2))
  }

  /** The dot product of (ux, uy) and (vx, vy), mapped from [-1, 1] to [0, 1]. */
  function Cosine(ux: real, uy: real, vx: real, vy: real): real
  {
    (ux * vx + uy * vy + 1.0) / 2.0
  }

  /** The square root behind `Hypot(dx, dy)` is exact. */
  predicate ExactLength(dx: real, dy: real)
  {
    Hypot(dx, dy) * Hypot(dx, dy) == dx * dx + dy * dy
  }

  /** An axis-parallel step has an exact length. */
  lemma {:induction false} AxisStepExact(dx: real, dy: real)
    requires dx == 0.0 || dy == 0.0
    ensures ExactLength(dx, dy)
  {
    HypotZero(dx, dy);
  }

  lemma {:induction false} MulPositive(a: real, b: real)
    requires a > 0.0 && b > 0.0
    ensures a * b > 0.0
  {
  }

  lemma {:induction false} SquareNonNegative(x: real)
    ensures x * x >= 0.0
  {
    if x < 0.0 {
      assert x * x == (-x) * (-x);
    }
  }

  /** s q <= q with q > 0 gives s <= 1, and s q == q gives s == 1. */
  lemma {:induction false} FactorOfOne(s: real, q: real)
    requires q > 0.0 && s * q <= q
    ensures s <= 1.0
    ensures s * q == q ==> s == 1.0
  {
    if s > 1.0 {
      MulPositive(s - 1.0, q);
    }
    if s * q == q && s < 1.0 {
      MulPositive(1.0 - s, q);
    }
  }

  /** A length h below 1 has h² below the 1 it is replaced by. */
  lemma {:induction false} SquareAtMost(h: real)
    requires h >= 0.0
    ensures h * h <= Max(1.0, h) * Max(1.0, h)
  {
    if h < 1.0 {
      assert h * h <= h * 1.0;
    }
  }

  /** Divided by max(1, h) for h = |(dx, dy)|, the vector (ux, uy) is no longer than 1, and exactly 1 long when h >= 1. */
  lemma {:induction false} ScaledLength(dx: real, dy: real, h: real, ux: real, uy: real)
    requires h >= 0.0 && h * h == dx * dx + dy * dy
    requires ux == dx / Max(1.0, h) && uy == dy / Max(1.0, h)
    ensures Short(ux, uy)
    ensures h >= 1.0 ==> Unit(ux, uy)
  {
    var len := Max(1.0, h);
    QuotientTimes(dx, len);
    QuotientTimes(dy, len);
    ScaledProducts(dx, dy, h, len, ux, uy);
  }

  /** The same, with the division undone: ux len = dx and uy len = dy. */
  lemma {:induction false} ScaledProducts(dx: real, dy: real, h: real, len: real, ux: real, uy: real)
    requires h >= 0.0 && h * h == dx * dx + dy * dy && len == Max(1.0, h)
    requires ux * len == dx && uy * len == dy
    ensures ux * ux + uy * uy <= 1.0
    ensures h >= 1.0 ==> ux * ux + uy * uy == 1.0
  {
    var q := len * len;
    assert dx * dx == (ux * ux) * q;
    assert dy * dy == (uy * uy) * q;
    assert (ux * ux + uy * uy) * q == (ux * ux) * q + (uy * uy) * q;
    SquareAtMost(h);
    assert h * h <= q;
    MulPositive(len, len);
    FactorOfOne(ux * ux + uy * uy, q);
  }

  /** (x, y) is no longer than 1. */
  predicate Short(x: real, y: real)
  {
    x * x + y * y <= 1.0
  }

  /** (x, y) is exactly 1 long. */
  predicate Unit(x: real, y: real)
  {
    x * x + y * y == 1.0
  }

  /** With an exact length the scaled step is no longer than 1, and exactly 1 long when the step is at least 1 long. */
  lemma {:induction false} UnitBound(dx: real, dy: real)
    requires ExactLength(dx, dy)
    ensures Short(UnitX(dx, dy), UnitY(dx, dy))
    ensures Hypot(dx, dy) >= 1.0 ==> Unit(UnitX(dx, dy), UnitY(dx, dy))
  {
    ScaledLength(dx, dy, Hypot(dx, dy), UnitX(dx, dy), UnitY(dx, dy));
  }

  /** Two vectors no longer than 1 have a dot product in [-1, 1]. */
  lemma {:induction false} DotBounded(ux: real, uy: real, vx: real, vy: real)
    requires ux * ux + uy * uy <= 1.0 && vx * vx + vy * vy <= 1.0
    ensures -1.0 <= ux * vx + uy * vy <= 1.0
  {
    ProductAtMost(ux, vx);
    ProductAtMost(uy, vy);
  }

  /** 2 |p q| <= p² + q². */
  lemma {:induction false} ProductAtMost(p: real, q: real)
    ensures 2.0 * (p * q) <= p * p + q * q
    ensures -2.0 * (p * q) <= p * p + q * q
  {
    SquareNonNegative(p - q);
    assert (p - q) * (p - q) == p * p - 2.0 * (p * q) + q * q;
    SquareNonNegative(p + q);
    assert (p + q) * (p + q) == p * p + 2.0 * (p * q) + q * q;
  }

  /** When both steps have exact lengths the consistency lies in [0, 1]. */
  lemma {:induction false} ConsistencyRange(dx1: real, dy1: real, dx2: real, dy2: real)
    requires ExactLength(dx1, dy1) && ExactLength(dx2, dy2)
    ensures 0.0 <= Consistency(dx1, dy1, dx2, dy2) <= 1.0
  {
    UnitBound(dx1, dy1);
    UnitBound(dx2, dy2);
    ConsistencyOfUnits(UnitX(dx1, dy1), UnitY(dx1, dy1), UnitX(dx2, dy2), UnitY(dx2, dy2));
  }

  /** A step at least 1 long followed by the step straight back has consistency 0. */
  lemma {:induction false} ConsistencyReversed(dx: real, dy: real)
    requires ExactLength(dx, dy) && Hypot(dx, dy) >= 1.0
    ensures Consistency(dx, dy, -dx, -dy) == 0.0
  {
    UnitBound(dx, dy);
    UnitOpposite(dx, dy);
    ConsistencyOfUnits(UnitX(dx, dy), UnitY(dx, dy), UnitX(-dx, -dy), UnitY(-dx, -dy));
  }

  /** Scaling the reversed step gives the reversed scaled step. */
  lemma {:induction false} UnitOpposite(dx: real, dy: real)
    ensures UnitX(-dx, -dy) == -UnitX(dx, dy) && UnitY(-dx, -dy) == -UnitY(dx, dy)
  {
    HypotSymmetric(dx, dy);
    var len := UnitLength(dx, dy);
    assert UnitLength(-dx, -dy) == len;
    NegatedQuotient(dx, len);
    NegatedQuotient(dy, len);
  }

  /** (d / len) len == d. */
  lemma {:induction false} QuotientTimes(d: real, len: real)
    requires len > 0.0
    ensures (d / len) * len == d
  {
  }

  /** (-d) / len == -(d / len). */
  lemma {:induction false} NegatedQuotient(d: real, len: real)
    requires len > 0.0
    ensures (-d) / len == -(d / len)
  {
    var p, q := (-d) / len, d / len;
    assert p * len == -d && q * len == d;
    assert (p + q) * len == 0.0;
  }

  /**
   * For two vectors no longer than 1, (u . v + 1) / 2 lies in [0, 1]; it is 1 for equal unit
   * vectors and 0 for opposite ones.
   */
  lemma {:induction false} ConsistencyOfUnits(ux: real, uy: real, vx: real, vy: real)
    requires Short(ux, uy) && Short(vx, vy)
    ensures 0.0 <= Cosine(ux, uy, vx, vy) <= 1.0
    ensures Unit(ux, uy) && vx == ux && vy == uy ==> Cosine(ux, uy, vx, vy) == 1.0
    ensures Unit(ux, uy) && vx == -ux && vy == -uy ==> Cosine(ux, uy, vx, vy) == 0.0
  {
    DotBounded(ux, uy, vx, vy);
    if vx == -ux && vy == -uy {
      assert ux * vx + uy * vy == -(ux * ux + uy * uy);
    }
  }

  /** The main processes in sequence order, as the bonus sorts them. */
  function Mains(layout: seq<Rect>): seq<Rect>
  {
    LayoutGenerator.MainsInOrder(layout)
  }

  /** What the link from main k to main k + 1 earns: closeness, plus direction consistency past the first link. */
  function LinkBonus(ms: seq<Rect>, k: nat): real
    requires k + 1 < |ms|
  {
    var proximity := Max(0.0, 200.0 - CenterDistance(ms[k], ms[k + 1]) / 5.0);
    if k > 0 then proximity + DirectionConsistency(ms[k - 1], ms[k], ms[k + 1]) * 50.0 else proximity
  }

  /** The bonus of the first n links. */
  function LinkBonusTo(ms: seq<Rect>, n: nat): real
    requires n < |ms|
  {
    if n == 0 then 0.0 else LinkBonusTo(ms, n - 1) + LinkBonus(ms, n - 1)
  }

  /** `_calculate_sequence_compliance_bonus`: 0 with fewer than two main processes, else the bonus of every link. */
  function SequenceBonus(layout: seq<Rect>): real
  {
    var ms := Mains(layout);
    if |ms| < 2 then 0.0 else LinkBonusTo(ms, |ms| - 1)
  }

  method CalculateSequenceBonus(layout: seq<Rect>) returns (bonus: real)
    ensures bonus == SequenceBonus(layout)
  {
    var ms := Mains(layout);
    if |ms| < 2 {
      return 0.0;
    }
    bonus := 0.0;
    for i := 0 to |ms| - 1
      invariant bonus == LinkBonusTo(ms, i)
    {
      var distance := CenterDistance(ms[i], ms[i + 1]);
      var proximity := Max(0.0, 200.0 - distance / 5.0);
      if i > 0 {
        proximity := proximity + DirectionConsistency(ms[i - 1], ms[i], ms[i + 1]) * 50.0;
      }
      bonus := bonus + proximity;
    }
  }

  /** Every step between consecutive main processes has an exact length. */
  predicate ExactSteps(ms: seq<Rect>)
  {
    forall k :: 0 <= k < |ms| - 1 ==> ExactLength(ms[k + 1].x - ms[k].x, ms[k + 1].y - ms[k].y)
  }

  /** With exact step lengths each link earns between 0 and 200 for closeness and up to 50 more for direction. */
  lemma {:induction false} LinkBonusBounds(ms: seq<Rect>, n: nat)
    requires n < |ms|
    requires ExactSteps(ms)
    ensures 0.0 <= LinkBonusTo(ms, n) <= 250.0 * n as real
  {
    if n > 0 {
      LinkBonusBounds(ms, n - 1);
      LinkBonusRange(ms, n - 1);
    }
  }

  /** One link earns between 0 and 250. */
  lemma {:induction false} LinkBonusRange(ms: seq<Rect>, k: nat)
    requires k + 1 < |ms|
    requires ExactSteps(ms)
    ensures 0.0 <= LinkBonus(ms, k) <= 250.0
  {
    var proximity := Max(0.0, 200.0 - CenterDistance(ms[k], ms[k + 1]) / 5.0);
    assert 0.0 <= proximity <= 200.0;
    if k > 0 {
      assert ExactLength(ms[k].x - ms[k - 1].x, ms[k].y - ms[k - 1].y);
      assert ExactLength(ms[k + 1].x - ms[k].x, ms[k + 1].y - ms[k].y);
      ConsistencyRange(ms[k].x - ms[k - 1].x, ms[k].y - ms[k - 1].y, ms[k + 1].x - ms[k].x, ms[k + 1].y - ms[k].y);
    }
  }

  /**
   * The sequence bonus is 0 with fewer than two main processes; with exact step lengths it lies
   * between 0 and 250 per link.
   */
  lemma {:induction false} SequenceBonusBounds(layout: seq<Rect>)
    ensures |Mains(layout)| < 2 ==> SequenceBonus(layout) == 0.0
    ensures ExactSteps(Mains(layout)) ==> 0.0 <= SequenceBonus(layout) <= 250.0 * |Mains(layout)| as real
  {
    var ms := Mains(layout);
    if |ms| >= 2 && ExactSteps(ms) {
      LinkBonusBounds(ms, |ms| - 1);
    }
  }

  // ---------------------------------------------------------------- utilisation and compactness bonus

  /** The bonus for a utilisation ratio u: 200 on [0.4, 0.7], rising linearly below, falling by 400 per unit above. */
  function UtilizationBonus(u: real): real
  {
    if 0.4 <= u <= 0.7 then 200.0
    else if u < 0.4 then u / 0.4 * 200.0
    else Max(0.0, 200.0 - (u - 0.7) * 400.0)
  }

  /**
   * For a non-negative ratio the bonus lies in [0, 200]; it is 200 exactly on [0.4, 0.7], is 0
   * for no utilisation and from 1.2 on, rises towards the plateau and falls after it.
   */
  lemma {:induction false} UtilizationBonusShape(u: real, v: real)
    ensures u >= 0.0 ==> 0.0 <= UtilizationBonus(u) <= 200.0
    ensures UtilizationBonus(u) == 200.0 <==> 0.4 <= u <= 0.7
    ensures u == 0.0 || u >= 1.2 ==> UtilizationBonus(u) == 0.0
    ensures u <= v <= 0.4 ==> UtilizationBonus(u) <= UtilizationBonus(v)
    ensures 0.7 <= u <= v ==> UtilizationBonus(v) <= UtilizationBonus(u)
  {
  }

  /** `_calculate_site_utilization_bonus`. */
  function SiteUtilizationBonus(c: Calculator, layout: seq<Rect>): real
  {
    UtilizationBonus(UtilizationRatio(layout, c.width, c.height))
  }

  /** `_calculate_compactness_bonus`: 150 per unit of compactness. */
  function CompactnessBonus(layout: seq<Rect>): real
  {
    Compactness(layout) * 150.0
  }

  // ---------------------------------------------------------------- accessibility bonus

  /** A zone whose name holds "road", in any letter case. */
  predicate IsRoad(z: Rect)
  {
    Contains(Lower(NameOf(z)), "road")
  }

  /** The smallest edge distance from r to a road among the first n zones; None when there is none. */
  function NearestRoad(zones: seq<Rect>, r: Rect, n: nat): Option<real>
    requires n <= |zones|
  {
    if n == 0 then None
    else
      var before := NearestRoad(zones, r, n - 1);
      var z := zones[n - 1];
      if !IsRoad(z) then before
      else
        var d := EdgeDistance(r, z);
        match before
        case None => Some(d)
        case Some(m) => Some(Min(m, d))
  }

  /** None iff no zone is a road; otherwise the distance of some road and at most that of every road. */
  lemma {:induction false} NearestRoadSpec(zones: seq<Rect>, r: Rect, n: nat)
    requires n <= |zones|
    ensures NearestRoad(zones, r, n).None? <==> forall k :: 0 <= k < n ==> !IsRoad(zones[k])
    ensures NearestRoad(zones, r, n).Some? ==> NearestRoad(zones, r, n).value >= 0.0
    ensures NearestRoad(zones, r, n).Some? ==>
      forall k :: 0 <= k < n && IsRoad(zones[k]) ==> NearestRoad(zones, r, n).value <= EdgeDistance(r, zones[k])
    ensures NearestRoad(zones, r, n).Some? ==>
      exists k :: 0 <= k < n && IsRoad(zones[k]) && NearestRoad(zones, r, n).value == EdgeDistance(r, zones[k])
  {
    if n > 0 {
      NearestRoadSpec(zones, r, n - 1);
      var before := NearestRoad(zones, r, n - 1);
      if IsRoad(zones[n - 1]) && before.Some? {
        var k :| 0 <= k < n - 1 && IsRoad(zones[k]) && before.value == EdgeDistance(r, zones[k]);
        if before.value <= EdgeDistance(r, zones[n - 1]) {
          assert NearestRoad(zones, r, n).value == EdgeDistance(r, zones[k]);
        } else {
          assert NearestRoad(zones, r, n).value == EdgeDistance(r, zones[n - 1]);
        }
      }
    }
  }

  /** What one rectangle earns: 100 at a road, 20 less per unit of distance, nothing when there is no road. */
  function AccessTerm(c: Calculator, r: Rect): real
  {
    match NearestRoad(c.zones, r, |c.zones|)
    case None => 0.0
    case Some(d) => Max(0.0, 100.0 - d * 20.0)
  }

  /** `_calculate_accessibility_bonus` over the first n rectangles. */
  function AccessibilityBonusTo(c: Calculator, layout: seq<Rect>, n: nat): real
    requires n <= |layout|
  {
    if n == 0 then 0.0 else AccessibilityBonusTo(c, layout, n - 1) + AccessTerm(c, layout[n - 1])
  }

  function AccessibilityBonus(c: Calculator, layout: seq<Rect>): real
  {
    AccessibilityBonusTo(c, layout, |layout|)
  }

  /** The inner loop over the zones: the nearest road, `inf` standing for None. */
  method FindNearestRoad(zones: seq<Rect>, r: Rect) returns (m: Option<real>)
    ensures m == NearestRoad(zones, r, |zones|)
  {
    m := None;
    for j := 0 to |zones|
      invariant m == NearestRoad(zones, r, j)
    {
      if Contains(Lower(NameOf(zones[j])), "road") {
        var distance := EdgeDistance(r, zones[j]);
        m := match m case None => Some(distance) case Some(v) => Some(Min(v, distance));
      }
    }
  }

  method CalculateAccessibilityBonus(c: Calculator, layout: seq<Rect>) returns (bonus: real)
    ensures bonus == AccessibilityBonus(c, layout)
  {
    bonus := 0.0;
    for k := 0 to |layout|
      invariant bonus == AccessibilityBonusTo(c, layout, k)
    {
      var m := FindNearestRoad(c.zones, layout[k]);
      if m.Some? {
        bonus := bonus + Max(0.0, 100.0 - m.value * 20.0);
      }
    }
  }

  /**
   * Each rectangle earns between 0 and 100, so the bonus lies in [0, 100 n]; without a road
   * among the zones it is 0, and every rectangle touching a road earns the full 100.
   */
  lemma {:induction false} AccessibilityBonusBounds(c: Calculator, layout: seq<Rect>, n: nat)
    requires n <= |layout|
    ensures 0.0 <= AccessibilityBonusTo(c, layout, n) <= 100.0 * n as real
    ensures (forall z :: 0 <= z < |c.zones| ==> !IsRoad(c.zones[z])) ==> AccessibilityBonusTo(c, layout, n) == 0.0
  {
    if n > 0 {
      AccessibilityBonusBounds(c, layout, n - 1);
      NearestRoadSpec(c.zones, layout[n - 1], |c.zones|);
    }
  }

  /** A rectangle at edge distance 0 from a road zone earns the full 100. */
  lemma {:induction false} AccessAtRoad(c: Calculator, r: Rect, z: nat)
    requires z < |c.zones| && IsRoad(c.zones[z]) && EdgeDistance(r, c.zones[z]) == 0.0
    ensures AccessTerm(c, r) == 100.0
  {
    NearestRoadSpec(c.zones, r, |c.zones|);
  }

  // ---------------------------------------------------------------- hazard penalty

  const Fire: string := ConstraintHandler.Fire
  const Explosion: string := ConstraintHandler.Explosion
  const Toxic: string := ConstraintHandler.Toxic

  /** The calculator's own table of minimum distances, which lists six of the handler's pairs. */
  const HazardTable: map<(string, string), real> := map[
    (Fire, Explosion) := 10.0, (Fire, Toxic) := 8.0, (Explosion, Toxic) := 12.0,
    (Fire, Fire) := 6.0, (Explosion, Explosion) := 15.0, (Toxic, Toxic) := 5.0]

  /** `table.get(combo1) or table.get(combo2) or 0`. */
  function RequiredDistance(t1: string, t2: string): real
  {
    if (t1, t2) in HazardTable then HazardTable[(t1, t2)]
    else if (t2, t1) in HazardTable then HazardTable[(t2, t1)]
    else 0.0
  }

  /**
   * The requirement is symmetric, and every positive requirement is the one the constraint
   * handler demands for the same tags.
   */
  lemma {:induction false} RequiredDistanceAgrees(t1: string, t2: string)
    ensures RequiredDistance(t1, t2) == RequiredDistance(t2, t1)
    ensures RequiredDistance(t1, t2) > 0.0 ==> RequiredDistance(t1, t2) == ConstraintHandler.RequiredHazardDistance(t1, t2)
  {
    assert Fire != Explosion && Fire != Toxic && Explosion != Toxic;
    assert ConstraintHandler.HighPressure != Fire && ConstraintHandler.HighPressure != Explosion;
    assert ConstraintHandler.Radioactive != Fire && ConstraintHandler.Radioactive != Explosion;
    assert ConstraintHandler.HighPressure != Toxic && ConstraintHandler.Radioactive != Toxic;
  }

  /** Hazard tags by space id. */
  type HazardMap = map<string, seq<string>>

  /** `hazard_info`: the hazard tags of every space that lists them. */
  function HazardInfo(c: Calculator): HazardMap
  {
    map id | id in c.spaces && c.spaces[id].Some? :: c.spaces[id].value
  }

  /** `hazard_info.get(id, [])`. */
  function HazardsOf(info: HazardMap, id: string): seq<string>
  {
    if id in info then info[id] else []
  }

  /** What tag t1 of one rectangle and tag t2 of another, d apart, add: twice the shortfall below the requirement. */
  function TagTerms(d: real): (string, string) -> seq<real>
  {
    (t1: string, t2: string) =>
      var required := RequiredDistance(t1, t2);
      if required > 0.0 && d < required then [(required - d) * 2.0] else []
  }

  /** What the pair (a, b) adds: the terms of every tag combination, when both carry tags. */
  function HazardTerm(info: HazardMap, a: Rect, b: Rect): seq<real>
  {
    var h1, h2 := HazardsOf(info, a.id), HazardsOf(info, b.id);
    if h1 != [] && h2 != [] then Product(h1, h2, TagTerms(EdgeDistance(a, b))) else []
  }

  function HazardTerms(info: HazardMap): (Rect, Rect) -> seq<real>
  {
    (a: Rect, b: Rect) => HazardTerm(info, a, b)
  }

  /** `_calculate_hazard_penalty`. */
  function HazardPenalty(c: Calculator, layout: seq<Rect>): real
  {
    Sum(Pairs(layout, HazardTerms(HazardInfo(c))))
  }

  /** The two inner loops over the tags of one pair. */
  method PairHazardPenalty(info: HazardMap, a: Rect, b: Rect) returns (penalty: real)
    ensures penalty == Sum(HazardTerm(info, a, b))
  {
    var hazards1, hazards2 := HazardsOf(info, a.id), HazardsOf(info, b.id);
    penalty := 0.0;
    if hazards1 != [] && hazards2 != [] {
      ghost var f := TagTerms(EdgeDistance(a, b));
      for i := 0 to |hazards1|
        invariant penalty == Sum(ProductRows(hazards1, hazards2, i, f))
      {
        var row := TagRow(a, b, hazards1[i], hazards2);
        SumProductRowsStep(hazards1, hazards2, i, f);
        penalty := penalty + row;
      }
    }
  }

  /** The innermost loop: tag t1 of a against every tag of b. */
  method TagRow(a: Rect, b: Rect, t1: string, hazards2: seq<string>) returns (row: real)
    ensures row == Sum(Across(t1, hazards2, |hazards2|, TagTerms(EdgeDistance(a, b))))
  {
    ghost var d := EdgeDistance(a, b);
    row := 0.0;
    for j := 0 to |hazards2|
      invariant row == Sum(Across(t1, hazards2, j, TagTerms(d)))
    {
      var required := RequiredDistance(t1, hazards2[j]);
      TagStep(d, t1, hazards2, j, required);
      if required > 0.0 {
        var actual := EdgeDistance(a, b);
        if actual < required {
          row := row + (required - actual) * 2.0;
        }
      }
    }
  }

  /** One more tag adds twice the shortfall of the distance d below the requirement, if there is one. */
  lemma {:induction false} TagStep(d: real, t1: string, hazards2: seq<string>, j: nat, required: real)
    requires j < |hazards2| && required == RequiredDistance(t1, hazards2[j])
    ensures Sum(Across(t1, hazards2, j + 1, TagTerms(d))) ==
      Sum(Across(t1, hazards2, j, TagTerms(d))) + if required > 0.0 && d < required then (required - d) * 2.0 else 0.0
  {
    var terms := TagTerms(d)(t1, hazards2[j]);
    SumAcrossStep(t1, hazards2, j, TagTerms(d));
    if terms != [] {
      SumSingle(terms[0]);
    }
  }

  method CalculateHazardPenalty(c: Calculator, layout: seq<Rect>) returns (penalty: real)
    ensures penalty == HazardPenalty(c, layout)
  {
    var hazardInfo := HazardInfo(c);
    ghost var f := HazardTerms(hazardInfo);
    penalty := 0.0;
    for i := 0 to |layout|
      invariant penalty == Sum(Rows(layout, i, f))
    {
      var row := HazardRow(hazardInfo, layout, i);
      SumRowsStep(layout, i, f);
      penalty := penalty + row;
    }
  }

  /** The loop over the rectangles after the i-th. */
  method HazardRow(info: HazardMap, layout: seq<Rect>, i: nat) returns (row: real)
    requires i < |layout|
    ensures row == Sum(RowTo(layout, i, |layout|, HazardTerms(info)))
  {
    row := 0.0;
    for j := i + 1 to |layout|
      invariant row == Sum(RowTo(layout, i, j, HazardTerms(info)))
    {
      var p := PairHazardPenalty(info, layout[i], layout[j]);
      HazardRowStep(info, layout, i, j);
      row := row + p;
    }
  }

  /** One more pair of the row adds that pair's terms. */
  lemma {:induction false} HazardRowStep(info: HazardMap, layout: seq<Rect>, i: nat, j: nat)
    requires i < j < |layout|
    ensures Sum(RowTo(layout, i, j + 1, HazardTerms(info))) ==
      Sum(RowTo(layout, i, j, HazardTerms(info))) + Sum(HazardTerm(info, layout[i], layout[j]))
  {
    SumRowToStep(layout, i, j, HazardTerms(info));
  }

  /** Every tag combination of a and b with a requirement is kept apart by at least that much. */
  predicate PairHazardFree(info: HazardMap, a: Rect, b: Rect)
  {
    var t1, t2 := HazardsOf(info, a.id), HazardsOf(info, b.id);
    forall i, j :: 0 <= i < |t1| && 0 <= j < |t2| && RequiredDistance(t1[i], t2[j]) > 0.0 ==>
      EdgeDistance(a, b) >= RequiredDistance(t1[i], t2[j])
  }

  predicate HazardFree(info: HazardMap, layout: seq<Rect>)
  {
    forall a, b :: 0 <= a < b < |layout| ==> PairHazardFree(info, layout[a], layout[b])
  }

  /** One pair adds only positive terms, and none iff it keeps its separations. */
  lemma {:induction false} PairHazardSpec(info: HazardMap, a: Rect, b: Rect)
    ensures forall v :: v in HazardTerm(info, a, b) ==> v > 0.0
    ensures HazardTerm(info, a, b) == [] <==> PairHazardFree(info, a, b)
  {
    var t1, t2 := HazardsOf(info, a.id), HazardsOf(info, b.id);
    if t1 != [] && t2 != [] {
      ProductEmpty(t1, t2, TagTerms(EdgeDistance(a, b)));
      forall v | v in HazardTerm(info, a, b)
        ensures v > 0.0
      {
        var i, j := ProductWitness(t1, t2, TagTerms(EdgeDistance(a, b)), v);
      }
    }
  }

  /** The hazard penalty is never negative and is 0 exactly when every pair keeps its separations. */
  lemma {:induction false} HazardPenaltySpec(c: Calculator, layout: seq<Rect>)
    ensures HazardPenalty(c, layout) >= 0.0
    ensures HazardPenalty(c, layout) == 0.0 <==> HazardFree(HazardInfo(c), layout)
  {
    var info := HazardInfo(c);
    var f := HazardTerms(info);
    var terms := Pairs(layout, f);
    forall v | v in terms
      ensures v > 0.0
    {
      PairsMember(layout, f, v);
      var a, b :| 0 <= a < b < |layout| && v in f(layout[a], layout[b]);
      PairHazardSpec(info, layout[a], layout[b]);
    }
    SumOfPositives(terms);
    PairsEmpty(layout, f);
    forall a, b | 0 <= a < b < |layout|
      ensures f(layout[a], layout[b]) == [] <==> PairHazardFree(info, layout[a], layout[b])
    {
      PairHazardSpec(info, layout[a], layout[b]);
    }
  }

  /**
   * A layout the constraint handler finds hazard-safe, for the same tags, carries no hazard
   * penalty: the calculator's table is part of the handler's.
   */
  lemma {:induction false} HazardSafeMeansNoPenalty(c: Calculator, h: ConstraintHandler.Handler, layout: seq<Rect>)
    requires h.hazards == HazardInfo(c)
    requires ConstraintHandler.HazardSafe(h, layout)
    ensures HazardPenalty(c, layout) == 0.0
  {
    var info := HazardInfo(c);
    forall a, b | 0 <= a < b < |layout|
      ensures PairHazardFree(info, layout[a], layout[b])
    {
      var t1, t2 := HazardsOf(info, layout[a].id), HazardsOf(info, layout[b].id);
      assert ConstraintHandler.HazardSeparated(h, layout[a], layout[b]);
      assert t1 == ConstraintHandler.HazardsOf(h, layout[a].id) && t2 == ConstraintHandler.HazardsOf(h, layout[b].id);
      forall i, j | 0 <= i < |t1| && 0 <= j < |t2| && RequiredDistance(t1[i], t2[j]) > 0.0
        ensures EdgeDistance(layout[a], layout[b]) >= RequiredDistance(t1[i], t2[j])
      {
        RequiredDistanceAgrees(t1[i], t2[j]);
      }
    }
    HazardPenaltySpec(c, layout);
  }

  // ---------------------------------------------------------------- the score

  /** The four penalties of a layout. */
  datatype Penalties = Penalties(overlap: real, boundary: real, fixedZone: real, hazard: real)

  /** The five bonuses of a layout. */
  datatype Bonuses = Bonuses(adjacency: real, sequence: real, utilization: real, compactness: real, accessibility: real)

  function PenaltiesOf(c: Calculator, layout: seq<Rect>): Penalties
  {
    Penalties(OverlapPenalty(layout), BoundaryPenalty(c, layout), FixedZonePenalty(c, layout), HazardPenalty(c, layout))
  }

  function BonusesOf(c: Calculator, layout: seq<Rect>): Bonuses
  {
    Bonuses(AdjacencyFitness(c, layout), SequenceBonus(layout), SiteUtilizationBonus(c, layout),
            CompactnessBonus(layout), AccessibilityBonus(c, layout))
  }

  /** No penalty is negative. */
  predicate NonNegative(p: Penalties)
  {
    p.overlap >= 0.0 && p.boundary >= 0.0 && p.fixedZone >= 0.0 && p.hazard >= 0.0
  }

  /** Overlap, boundary or fixed-zone penalty: the violations no bonus can make up for. */
  predicate Fatal(p: Penalties)
  {
    p.overlap > 0.0 || p.boundary > 0.0 || p.fixedZone > 0.0
  }

  /** The score of a fatally flawed layout: the negated weighted sum of its fatal penalties. */
  function FatalScore(p: Penalties): real
  {
    -(p.overlap * OverlapWeight + p.boundary * BoundaryWeight + p.fixedZone * FixedZoneWeight)
  }

  /** The base score plus the weighted bonuses minus the weighted hazard penalty (each weight per 1000). */
  function WeightedScore(b: Bonuses, hazard: real): real
  {
    BaseScore + b.adjacency * AdjacencyWeight / 1000.0 + b.sequence * SequenceWeight / 1000.0 +
    b.utilization * UtilizationWeight / 1000.0 + b.compactness * CompactnessWeight / 1000.0 +
    b.accessibility * AccessibilityWeight / 1000.0 - hazard * HazardWeight / 1000.0
  }

  /** The score of a non-empty layout with penalties p and bonuses b. */
  function Score(p: Penalties, b: Bonuses): real
  {
    if Fatal(p) then FatalScore(p) else Max(0.0, WeightedScore(b, p.hazard))
  }

  /** `calculate_fitness`. */
  function Fitness(c: Calculator, layout: seq<Rect>): real
  {
    if layout == [] then 0.0 else Score(PenaltiesOf(c, layout), BonusesOf(c, layout))
  }

  method CalculateFitness(c: Calculator, layout: seq<Rect>) returns (score: real)
    ensures score == Fitness(c, layout)
  {
    if |layout| == 0 {
      return 0.0;
    }
    var overlap := CalculateOverlapPenalty(layout);
    var boundary := CalculateBoundaryPenalty(c, layout);
    var fixedZone := CalculateFixedZonePenalty(c, layout);
    if overlap > 0.0 || boundary > 0.0 || fixedZone > 0.0 {
      return -(overlap * OverlapWeight + boundary * BoundaryWeight + fixedZone * FixedZoneWeight);
    }
    var adjacency := CalculateAdjacencyFitness(c, layout);
    var sequence := CalculateSequenceBonus(layout);
    var utilization := SiteUtilizationBonus(c, layout);
    var compactness := CompactnessBonus(layout);
    var accessibility := CalculateAccessibilityBonus(c, layout);
    var hazard := CalculateHazardPenalty(c, layout);
    var finalScore := WeightedScore(Bonuses(adjacency, sequence, utilization, compactness, accessibility), hazard);
    score := Max(0.0, finalScore);
  }

  /** Every rectangle lies inside the site. */
  predicate WithinSite(c: Calculator, layout: seq<Rect>)
  {
    forall k :: 0 <= k < |layout| ==> InBounds(layout[k], c.width, c.height)
  }

  /** The penalties are never negative when no rectangle has a negative size. */
  lemma {:induction false} PenaltiesNonNegative(c: Calculator, layout: seq<Rect>)
    requires AllNonNegative(layout)
    ensures NonNegative(PenaltiesOf(c, layout))
  {
    OverlapPenaltySpec(layout);
    BoundaryPenaltySpec(c, layout, |layout|);
    FixedZonePenaltySpec(c, layout);
    HazardPenaltySpec(c, layout);
  }

  /** With non-negative penalties, a score is below 0 exactly when the penalties are fatal. */
  lemma {:induction false} ScoreSign(p: Penalties, b: Bonuses)
    ensures !Fatal(p) ==> Score(p, b) >= 0.0
    ensures NonNegative(p) ==> (Score(p, b) < 0.0 <==> Fatal(p))
  {
  }

  /**
   * The empty layout scores 0; a layout without fatal penalties scores at least 0; and, for
   * rectangles of non-negative size, a layout scores below 0 exactly when it is non-empty and
   * fatally flawed.
   */
  lemma {:induction false} FitnessGate(c: Calculator, layout: seq<Rect>)
    ensures layout == [] ==> Fitness(c, layout) == 0.0
    ensures !Fatal(PenaltiesOf(c, layout)) ==> Fitness(c, layout) >= 0.0
    ensures AllNonNegative(layout) ==> (Fitness(c, layout) < 0.0 <==> layout != [] && Fatal(PenaltiesOf(c, layout)))
  {
    ScoreSign(PenaltiesOf(c, layout), BonusesOf(c, layout));
    if AllNonNegative(layout) {
      PenaltiesNonNegative(c, layout);
    }
  }

  /** Any feasible layout outscores any fatally flawed one. */
  lemma {:induction false} FeasibleBeatsInfeasible(c: Calculator, good: seq<Rect>, bad: seq<Rect>)
    requires AllNonNegative(bad) && bad != [] && Fatal(PenaltiesOf(c, bad))
    requires !Fatal(PenaltiesOf(c, good))
    ensures Fitness(c, bad) < Fitness(c, good)
  {
    FitnessGate(c, good);
    FitnessGate(c, bad);
  }

  /**
   * For rectangles and zones of positive size, a non-empty layout scores at least 0 exactly when
   * no two rectangles overlap, every rectangle lies inside the site and none meets a fixed zone.
   */
  lemma {:induction false} FitnessFeasible(c: Calculator, layout: seq<Rect>)
    requires AllPositive(layout) && AllPositive(c.zones) && layout != []
    ensures Fitness(c, layout) >= 0.0 <==> PairwiseDisjoint(layout) && WithinSite(c, layout) && ClearOfZones(c, layout)
  {
    assert AllNonNegative(layout);
    FitnessGate(c, layout);
    OverlapPenaltySpec(layout);
    BoundaryPenaltySpec(c, layout, |layout|);
    FixedZonePenaltySpec(c, layout);
  }

  // ---------------------------------------------------------------- breakdown

  /** The entries of `violations`, in the order they are appended. */
  datatype ViolationKind = ProcessOverlap | BoundaryViolation | FixedZoneIntrusion | HazardDistance

  /** `weighted_scores`: each bonus times its weight per 1000, and the hazard penalty negated likewise. */
  datatype WeightedScores = WeightedScores(adjacency: real, sequence: real, utilization: real, compactness: real,
                                           accessibility: real, hazard: real)

  /**
   * `get_fitness_breakdown`: for the empty layout a total and base of 0 with nothing else;
   * otherwise the total, the base of 1000, the penalties, the bonuses, the violations found and
   * the weighted scores.
   */
  datatype Breakdown =
    | EmptyBreakdown
    | Breakdown(total: real, penalties: Penalties, bonuses: Bonuses, violations: seq<ViolationKind>,
                weighted: WeightedScores)
  {
    function TotalScore(): real
    {
      if EmptyBreakdown? then 0.0 else total
    }

    function BaseScoreOf(): real
    {
      if EmptyBreakdown? then 0.0 else BaseScore
    }
  }

  /** Every penalty above 0 is a violation, the hazard penalty included. */
  function Violations(p: Penalties): seq<ViolationKind>
  {
    When(p.overlap > 0.0, ProcessOverlap) + When(p.boundary > 0.0, BoundaryViolation) +
    When(p.fixedZone > 0.0, FixedZoneIntrusion) + When(p.hazard > 0.0, HazardDistance)
  }

  /** Each kind is listed once, exactly when its penalty is above 0. */
  lemma {:induction false} ViolationsSpec(p: Penalties)
    ensures forall v :: v in Violations(p) <==>
      (v == ProcessOverlap && p.overlap > 0.0) || (v == BoundaryViolation && p.boundary > 0.0) ||
      (v == FixedZoneIntrusion && p.fixedZone > 0.0) || (v == HazardDistance && p.hazard > 0.0)
    ensures Distinct(Violations(p))
    ensures Violations(p) == [] <==> !Fatal(p) && p.hazard <= 0.0
  {
    var v := Violations(p);
    forall i, j | 0 <= i < j < |v|
      ensures v[i] != v[j]
    {
      assert v[i] in v && v[j] in v;
    }
  }

  function WeightedScoresOf(b: Bonuses, hazard: real): WeightedScores
  {
    WeightedScores(b.adjacency * AdjacencyWeight / 1000.0, b.sequence * SequenceWeight / 1000.0,
                   b.utilization * UtilizationWeight / 1000.0, b.compactness * CompactnessWeight / 1000.0,
                   b.accessibility * AccessibilityWeight / 1000.0, -hazard * HazardWeight / 1000.0)
  }

  /** The breakdown of a non-empty layout with penalties p and bonuses b. */
  function BreakdownFrom(p: Penalties, b: Bonuses): Breakdown
  {
    var violations := Violations(p);
    var total := if violations != [] then FatalScore(p) else WeightedScore(b, p.hazard);
    Breakdown(Max(0.0, total), p, b, violations, WeightedScoresOf(b, p.hazard))
  }

  function BreakdownOf(c: Calculator, layout: seq<Rect>): Breakdown
  {
    if layout == [] then EmptyBreakdown else BreakdownFrom(PenaltiesOf(c, layout), BonusesOf(c, layout))
  }

  /**
   * The breakdown's total is never negative. With no violation it is the score; with a violation
   * and non-negative penalties it is 0, so a fatally flawed layout is reported 0 while its score
   * is below 0, and a layout whose only flaw is a hazard shortfall is reported 0 while its score
   * is the clipped weighted score. The weighted parts add up to the weighted score.
   */
  lemma {:induction false} BreakdownFromSpec(p: Penalties, b: Bonuses)
    ensures BreakdownFrom(p, b).total >= 0.0
    ensures BreakdownFrom(p, b).violations == [] ==> BreakdownFrom(p, b).total == Score(p, b)
    ensures BreakdownFrom(p, b).violations != [] && NonNegative(p) ==> BreakdownFrom(p, b).total == 0.0
    ensures NonNegative(p) && Fatal(p) ==> BreakdownFrom(p, b).total == 0.0 > Score(p, b)
    ensures NonNegative(p) && !Fatal(p) && p.hazard > 0.0 ==>
      BreakdownFrom(p, b).total == 0.0 && Score(p, b) == Max(0.0, WeightedScore(b, p.hazard))
    ensures var w := BreakdownFrom(p, b).weighted;
      BaseScore + w.adjacency + w.sequence + w.utilization + w.compactness + w.accessibility + w.hazard ==
        WeightedScore(b, p.hazard)
  {
    ViolationsSpec(p);
    ScoreSign(p, b);
  }

  /** The breakdown of a layout agrees with its fitness exactly as the breakdown of its penalties does. */
  lemma {:induction false} BreakdownSpec(c: Calculator, layout: seq<Rect>)
    ensures BreakdownOf(c, layout).TotalScore() >= 0.0
    ensures BreakdownOf(c, layout).EmptyBreakdown? <==> layout == []
    ensures layout == [] ==> BreakdownOf(c, layout).TotalScore() == Fitness(c, layout)
    ensures layout != [] && BreakdownOf(c, layout).violations == [] ==>
      BreakdownOf(c, layout).TotalScore() == Fitness(c, layout)
    ensures layout != [] && AllNonNegative(layout) && Fatal(PenaltiesOf(c, layout)) ==>
      BreakdownOf(c, layout).TotalScore() == 0.0 > Fitness(c, layout)
  {
    if layout != [] {
      var p, b := PenaltiesOf(c, layout), BonusesOf(c, layout);
      BreakdownFromSpec(p, b);
      if AllNonNegative(layout) {
        PenaltiesNonNegative(c, layout);
      }
    }
  }

  // ---------------------------------------------------------------- requirements and suggestions

  /** `validate_fitness_requirements`. */
  datatype Requirements = Requirements(
    noOverlaps: bool, withinBoundaries: bool, avoidFixedZones: bool, hazardDistancesOk: bool,
    goodAdjacency: bool, sequenceCompliance: bool, acceptableUtilization: bool, goodCompactness: bool,
    goodAccessibility: bool, allCriticalMet: bool, allRequirementsMet: bool)

  /** The thresholds each bonus must reach. */
  const MinAdjacency: real := 100.0
  const MinSequence: real := 150.0
  const MinUtilization: real := 120.0
  const MinCompactness: real := 80.0
  const MinAccessibility: real := 60.0

  /** The requirements of a non-empty layout with penalties p and bonuses b. */
  function RequirementsFrom(p: Penalties, b: Bonuses): Requirements
  {
    var critical := p.overlap == 0.0 && p.boundary == 0.0 && p.fixedZone == 0.0 && p.hazard == 0.0;
    var goals := b.adjacency >= MinAdjacency && b.sequence >= MinSequence && b.utilization >= MinUtilization &&
                 b.compactness >= MinCompactness && b.accessibility >= MinAccessibility;
    Requirements(p.overlap == 0.0, p.boundary == 0.0, p.fixedZone == 0.0, p.hazard == 0.0,
                 b.adjacency >= MinAdjacency, b.sequence >= MinSequence, b.utilization >= MinUtilization,
                 b.compactness >= MinCompactness, b.accessibility >= MinAccessibility,
                 critical, critical && goals)
  }

  /**
   * The requirements of a layout. The empty layout's breakdown has no penalty and no bonus
   * entries, so the lookups fail: None.
   */
  function FitnessRequirements(c: Calculator, layout: seq<Rect>): Option<Requirements>
  {
    if layout == [] then None else Some(RequirementsFrom(PenaltiesOf(c, layout), BonusesOf(c, layout)))
  }

  /** Meeting every critical requirement means no violation, and then the breakdown total is the score. */
  lemma {:induction false} RequirementsFromSpec(p: Penalties, b: Bonuses)
    ensures RequirementsFrom(p, b).allCriticalMet <==> Violations(p) == [] && NonNegative(p) && !Fatal(p) && p.hazard == 0.0
    ensures RequirementsFrom(p, b).allCriticalMet ==> BreakdownFrom(p, b).total == Score(p, b) >= 0.0
    ensures RequirementsFrom(p, b).allRequirementsMet ==> RequirementsFrom(p, b).allCriticalMet
  {
    ViolationsSpec(p);
    BreakdownFromSpec(p, b);
    ScoreSign(p, b);
  }

  /**
   * The requirements exist exactly for non-empty layouts. For rectangles and zones of positive
   * size the four critical ones are the geometric and hazard conditions; meeting them all means
   * a breakdown total equal to the fitness, and a fitness of at least 0.
   */
  lemma {:induction false} RequirementsMeaning(c: Calculator, layout: seq<Rect>)
    ensures FitnessRequirements(c, layout).None? <==> layout == []
    ensures layout != [] && AllPositive(layout) ==>
      (FitnessRequirements(c, layout).value.noOverlaps <==> PairwiseDisjoint(layout))
    ensures layout != [] && AllPositive(layout) ==>
      (FitnessRequirements(c, layout).value.withinBoundaries <==> WithinSite(c, layout))
    ensures layout != [] && AllPositive(layout) && AllPositive(c.zones) ==>
      (FitnessRequirements(c, layout).value.avoidFixedZones <==> ClearOfZones(c, layout))
    ensures layout != [] ==>
      (FitnessRequirements(c, layout).value.hazardDistancesOk <==> HazardFree(HazardInfo(c), layout))
    ensures layout != [] && FitnessRequirements(c, layout).value.allCriticalMet ==>
      BreakdownOf(c, layout).TotalScore() == Fitness(c, layout) >= 0.0
  {
    if layout != [] {
      OverlapPenaltySpec(layout);
      BoundaryPenaltySpec(c, layout, |layout|);
      FixedZonePenaltySpec(c, layout);
      HazardPenaltySpec(c, layout);
      RequirementsFromSpec(PenaltiesOf(c, layout), BonusesOf(c, layout));
    }
  }

  /** The five bonus categories, in the order they are checked and compared. */
  datatype Category = AdjacencyGoal | SequenceGoal | UtilizationGoal | CompactnessGoal | AccessibilityGoal

  function BonusIn(b: Bonuses, cat: Category): real
  {
    match cat
    case AdjacencyGoal => b.adjacency
    case SequenceGoal => b.sequence
    case UtilizationGoal => b.utilization
    case CompactnessGoal => b.compactness
    case AccessibilityGoal => b.accessibility
  }

  function Threshold(cat: Category): real
  {
    match cat
    case AdjacencyGoal => MinAdjacency
    case SequenceGoal => MinSequence
    case UtilizationGoal => MinUtilization
    case CompactnessGoal => MinCompactness
    case AccessibilityGoal => MinAccessibility
  }

  /** What `suggest_improvements` proposes: a fix for a violation, or an improvement of a bonus below its threshold. */
  datatype Suggestion = Fix(kind: ViolationKind) | Improve(category: Category)

  /** One fix per violation, in the violations' order. */
  function Fixes(vs: seq<ViolationKind>): (s: seq<Suggestion>)
    ensures |s| == |vs| && forall k :: 0 <= k < |vs| ==> s[k] == Fix(vs[k])
  {
    if vs == [] then [] else [Fix(vs[0])] + Fixes(vs[1..])
  }

  /** One improvement per bonus below its threshold, in category order. */
  function BonusSuggestions(b: Bonuses): seq<Suggestion>
  {
    When(b.adjacency < MinAdjacency, Improve(AdjacencyGoal)) + When(b.sequence < MinSequence, Improve(SequenceGoal)) +
    When(b.utilization < MinUtilization, Improve(UtilizationGoal)) +
    When(b.compactness < MinCompactness, Improve(CompactnessGoal)) +
    When(b.accessibility < MinAccessibility, Improve(AccessibilityGoal))
  }

  /** The suggestions for a non-empty layout with penalties p and bonuses b. */
  function SuggestionsFrom(p: Penalties, b: Bonuses): seq<Suggestion>
  {
    Fixes(Violations(p)) + BonusSuggestions(b)
  }

  /**
   * `suggest_improvements`: a fix per violation, in order, then an improvement per bonus below
   * its threshold. The empty layout's breakdown has no bonus entries, so the lookup fails: None.
   */
  function Suggestions(c: Calculator, layout: seq<Rect>): Option<seq<Suggestion>>
  {
    if layout == [] then None else Some(SuggestionsFrom(PenaltiesOf(c, layout), BonusesOf(c, layout)))
  }

  /** A fix is listed exactly when its violation is; nothing but fixes is listed. */
  lemma {:induction false} FixesSpec(vs: seq<ViolationKind>)
    ensures forall v :: Fix(v) in Fixes(vs) <==> v in vs
    ensures forall s :: s in Fixes(vs) ==> s.Fix?
  {
    var ss := Fixes(vs);
    forall v
      ensures Fix(v) in ss <==> v in vs
    {
      if Fix(v) in ss {
        var k :| 0 <= k < |ss| && ss[k] == Fix(v);
        assert vs[k] == v;
      }
      if v in vs {
        var k :| 0 <= k < |vs| && vs[k] == v;
        assert ss[k] == Fix(v);
      }
    }
  }

  /** An improvement is listed exactly when its bonus is below its threshold; nothing but improvements is listed. */
  lemma {:induction false} BonusSuggestionsSpec(b: Bonuses)
    ensures forall s :: s in BonusSuggestions(b) <==> s.Improve? && BonusIn(b, s.category) < Threshold(s.category)
    ensures BonusSuggestions(b) == [] <==>
      b.adjacency >= MinAdjacency && b.sequence >= MinSequence && b.utilization >= MinUtilization &&
      b.compactness >= MinCompactness && b.accessibility >= MinAccessibility
  {
  }

  /**
   * The suggestions name exactly the violations and exactly the bonuses below their thresholds;
   * with non-negative penalties there is none exactly when every requirement is met.
   */
  lemma {:induction false} SuggestionsFromSpec(p: Penalties, b: Bonuses)
    ensures forall v :: Fix(v) in SuggestionsFrom(p, b) <==> v in Violations(p)
    ensures forall cat :: Improve(cat) in SuggestionsFrom(p, b) <==> BonusIn(b, cat) < Threshold(cat)
    ensures NonNegative(p) ==> (SuggestionsFrom(p, b) == [] <==> RequirementsFrom(p, b).allRequirementsMet)
  {
    ViolationsSpec(p);
    FixesSpec(Violations(p));
    BonusSuggestionsSpec(b);
  }

  /**
   * With non-negative penalties, a fix is suggested exactly when its critical requirement fails
   * and an improvement exactly when its goal is missed, and nothing is suggested exactly when
   * every requirement is met.
   */
  lemma {:induction false} SuggestionsFromRequirements(p: Penalties, b: Bonuses)
    requires NonNegative(p)
    ensures SuggestionsFrom(p, b) == [] <==> RequirementsFrom(p, b).allRequirementsMet
    ensures Fix(ProcessOverlap) in SuggestionsFrom(p, b) <==> !RequirementsFrom(p, b).noOverlaps
    ensures Fix(BoundaryViolation) in SuggestionsFrom(p, b) <==> !RequirementsFrom(p, b).withinBoundaries
    ensures Fix(FixedZoneIntrusion) in SuggestionsFrom(p, b) <==> !RequirementsFrom(p, b).avoidFixedZones
    ensures Fix(HazardDistance) in SuggestionsFrom(p, b) <==> !RequirementsFrom(p, b).hazardDistancesOk
    ensures Improve(AdjacencyGoal) in SuggestionsFrom(p, b) <==> !RequirementsFrom(p, b).goodAdjacency
    ensures Improve(SequenceGoal) in SuggestionsFrom(p, b) <==> !RequirementsFrom(p, b).sequenceCompliance
    ensures Improve(UtilizationGoal) in SuggestionsFrom(p, b) <==> !RequirementsFrom(p, b).acceptableUtilization
    ensures Improve(CompactnessGoal) in SuggestionsFrom(p, b) <==> !RequirementsFrom(p, b).goodCompactness
    ensures Improve(AccessibilityGoal) in SuggestionsFrom(p, b) <==> !RequirementsFrom(p, b).goodAccessibility
  {
    SuggestionsFromSpec(p, b);
    ViolationsSpec(p);
  }

  /** For rectangles of non-negative size a layout gets no suggestion exactly when it meets every requirement. */
  lemma {:induction false} SuggestionsMatchRequirements(c: Calculator, layout: seq<Rect>)
    ensures layout != [] && AllNonNegative(layout) ==>
      (Suggestions(c, layout).value == [] <==> FitnessRequirements(c, layout).value.allRequirementsMet)
  {
    if layout != [] && AllNonNegative(layout) {
      PenaltiesNonNegative(c, layout);
      SuggestionsFromRequirements(PenaltiesOf(c, layout), BonusesOf(c, layout));
    }
  }

  // ---------------------------------------------------------------- comparing two layouts

  datatype Winner = First | Second

  /** One bonus category of two layouts: the scores, the second minus the first, and the winner. */
  datatype CategoryComparison = CategoryComparison(first: real, second: real, difference: real, winner: Winner)

  /** `compare_layouts`: the two totals, the winner, the absolute difference and the five categories. */
  datatype Comparison = Comparison(firstScore: real, secondScore: real, winner: Winner, difference: real,
                                   categories: seq<CategoryComparison>)

  /** `'layout1' if a > b else 'layout2'`: a tie goes to the second. */
  function WinnerOf(a: real, b: real): Winner
  {
    if a > b then First else Second
  }

  function CompareCategory(a: real, b: real): CategoryComparison
  {
    CategoryComparison(a, b, b - a, WinnerOf(a, b))
  }

  /** The categories adjacency, sequence, utilisation, compactness and accessibility, in that order. */
  function CategoryScores(b: Bonuses): seq<real>
  {
    [b.adjacency, b.sequence, b.utilization, b.compactness, b.accessibility]
  }

  /** The comparison of two non-empty layouts' breakdowns. */
  function CompareBreakdowns(s1: real, b1: Bonuses, s2: real, b2: Bonuses): Comparison
  {
    var c1, c2 := CategoryScores(b1), CategoryScores(b2);
    Comparison(s1, s2, WinnerOf(s1, s2), Abs(s1 - s2), seq(5, k requires 0 <= k < 5 => CompareCategory(c1[k], c2[k])))
  }

  /**
   * `compare_layouts`. The breakdown of an empty layout has no bonus entries, so the category
   * lookups fail: None when either layout is empty.
   */
  function CompareLayouts(c: Calculator, layout1: seq<Rect>, layout2: seq<Rect>): Option<Comparison>
  {
    if layout1 == [] || layout2 == [] then None
    else
      var b1, b2 := BreakdownOf(c, layout1), BreakdownOf(c, layout2);
      Some(CompareBreakdowns(b1.TotalScore(), b1.bonuses, b2.TotalScore(), b2.bonuses))
  }

  /**
   * The first wins exactly when it scores strictly more; the difference is the distance of the
   * two totals; each category's difference is the second's bonus minus the first's; and comparing
   * the other way round swaps the scores, keeps the difference and, unless the totals tie, swaps
   * the winner.
   */
  lemma {:induction false} CompareBreakdownsSpec(s1: real, b1: Bonuses, s2: real, b2: Bonuses)
    ensures var r := CompareBreakdowns(s1, b1, s2, b2);
      (r.winner == First <==> s1 > s2) &&
      r.difference >= 0.0 && (r.difference == s1 - s2 || r.difference == s2 - s1) &&
      |r.categories| == 5 &&
      forall k :: 0 <= k < 5 ==>
        r.categories[k].first == CategoryScores(b1)[k] && r.categories[k].second == CategoryScores(b2)[k] &&
        r.categories[k].difference == r.categories[k].second - r.categories[k].first &&
        (r.categories[k].winner == First <==> r.categories[k].first > r.categories[k].second)
    ensures var r, q := CompareBreakdowns(s1, b1, s2, b2), CompareBreakdowns(s2, b2, s1, b1);
      q.difference == r.difference && (s1 != s2 ==> q.winner != r.winner)
  {
  }

  /** The comparison exists exactly when both layouts are non-empty, and compares their breakdown totals. */
  lemma {:induction false} CompareLayoutsSpec(c: Calculator, layout1: seq<Rect>, layout2: seq<Rect>)
    ensures CompareLayouts(c, layout1, layout2).Some? <==> layout1 != [] && layout2 != []
    ensures CompareLayouts(c, layout1, layout2).Some? ==>
      CompareLayouts(c, layout1, layout2).value.firstScore == BreakdownOf(c, layout1).TotalScore() &&
      CompareLayouts(c, layout1, layout2).value.secondScore == BreakdownOf(c, layout2).TotalScore() &&
      CompareLayouts(c, layout1, layout2).value.firstScore >= 0.0 &&
      CompareLayouts(c, layout1, layout2).value.secondScore >= 0.0
  {
    BreakdownSpec(c, layout1);
    BreakdownSpec(c, layout2);
  }
}
