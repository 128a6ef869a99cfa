/**
 * The improved exhaustive search: every main-process arrangement the improved generator
 * produces gets its sub processes, a fitness reduced by search-time penalties, the
 * handler's verdict and a layout code; the search may stop early once it holds enough
 * high-quality solutions, and the final list puts constraint-valid solutions first, then
 * those that only cross the site boundary, then the rest.
 */
module ExhaustiveSearchImproved {
  import opened Wrappers
  import opened Collect
  import opened Sorting
  import opened Geometry
  import FitnessCalculator
  import ConstraintHandler
  import LayoutGenerator
  import LayoutGeneratorImproved
  import opened BaseEngine

  type Site = LayoutGenerator.Site

  /** `quality_threshold`: the fitness a constraint-valid solution must exceed to count as high quality. */
  const QualityThreshold: real := 800.0

  /** The search-time penalty rates: per metre outside the site, per unit of overlap area, per unit inside a zone. */
  const BoundaryRate: real := 10.0
  const OverlapRate: real := 100.0
  const ZoneRate: real := 50.0

  // ---------------------------------------------------------------- boundary penalty

  /** How far a rectangle reaches past the left and right sides, plus past the top and bottom. */
  function SideExcess(site: Site, r: Rect): real
  {
    (Max(0.0, -r.x) + Max(0.0, Right(r) - site.width)) + (Max(0.0, -r.y) + Max(0.0, Bottom(r) - site.height))
  }

  /** No side is crossed by a negative amount, and none is crossed exactly when the rectangle lies inside. */
  lemma {:induction false} SideExcessSpec(site: Site, r: Rect)
    ensures SideExcess(site, r) >= 0.0
    ensures SideExcess(site, r) == 0.0 <==> InBounds(r, site.width, site.height)
  {
  }

  /** Every rectangle lies inside the site. */
  predicate InSite(site: Site, layout: seq<Rect>)
  {
    forall k :: 0 <= k < |layout| ==> InBounds(layout[k], site.width, site.height)
  }

  /** `_calculate_boundary_penalty` over the first n rectangles. */
  function BoundaryPenaltyTo(site: Site, layout: seq<Rect>, n: nat): real
    requires n <= |layout|
  {
    if n == 0 then 0.0 else BoundaryPenaltyTo(site, layout, n - 1) + SideExcess(site, layout[n - 1]) * BoundaryRate
  }

  function BoundaryPenalty(site: Site, layout: seq<Rect>): real
  {
    BoundaryPenaltyTo(site, layout, |layout|)
  }

  /** The loop of `_calculate_boundary_penalty`. */
  method CalculateBoundaryPenalty(site: Site, layout: seq<Rect>) returns (penalty: real)
    ensures penalty == BoundaryPenalty(site, layout)
  {
    penalty := 0.0;
    for i := 0 to |layout|
      invariant penalty == BoundaryPenaltyTo(site, layout, i)
    {
      var rect := layout[i];
      var xViolation := Max(0.0, -rect.x) + Max(0.0, rect.x + rect.w - site.width);
      var yViolation := Max(0.0, -rect.y) + Max(0.0, rect.y + rect.h - site.height);
      penalty := penalty + (xViolation + yViolation) * BoundaryRate;
    }
  }

  /** The boundary penalty is never negative, and it is 0 exactly when every rectangle lies inside. */
  lemma {:induction false} BoundaryPenaltySpec(site: Site, layout: seq<Rect>, n: nat)
    requires n <= |layout|
    ensures BoundaryPenaltyTo(site, layout, n) >= 0.0
    ensures BoundaryPenaltyTo(site, layout, n) == 0.0 <==> forall k :: 0 <= k < n ==> InBounds(layout[k], site.width, site.height)
  {
    if n > 0 {
      BoundaryPenaltySpec(site, layout, n - 1);
      SideExcessSpec(site, layout[n - 1]);
    }
  }

  /** `_has_boundary_violations`: a scan that stops at the first rectangle crossing a side. */
  method HasBoundaryViolations(site: Site, layout: seq<Rect>) returns (b: bool)
    ensures b <==> !InSite(site, layout)
  {
    for i := 0 to |layout|
      invariant forall k :: 0 <= k < i ==> InBounds(layout[k], site.width, site.height)
    {
      var rect := layout[i];
      if rect.x < 0.0 || rect.y < 0.0 || rect.x + rect.w > site.width || rect.y + rect.h > site.height {
        return true;
      }
    }
    return false;
  }

  /** The boundary penalty is positive exactly when `_has_boundary_violations` reports a crossing. */
  lemma {:induction false} BoundaryPenaltyFlags(site: Site, layout: seq<Rect>)
    ensures BoundaryPenalty(site, layout) > 0.0 <==> !InSite(site, layout)
  {
    BoundaryPenaltySpec(site, layout, |layout|);
  }

  // ---------------------------------------------------------------- overlap penalty

  /** `_calculate_overlap_penalty`: 100 per unit of area two rectangles share, over all pairs. */
  function OverlapPenalty(layout: seq<Rect>): real
  {
    OverlapRate * FitnessCalculator.OverlapPenalty(layout)
  }

  /** The nested loops of `_calculate_overlap_penalty`, with one running total. */
  method CalculateOverlapPenalty(layout: seq<Rect>) returns (penalty: real)
    ensures penalty == OverlapPenalty(layout)
  {
    penalty := 0.0;
    for i := 0 to |layout|
      invariant penalty == OverlapRate * Sum(Rows(layout, i, FitnessCalculator.OverlapTerms()))
    {
      SumRowsStep(layout, i, FitnessCalculator.OverlapTerms());
      penalty := OverlapRowPenalty(layout, i, penalty);
    }
  }

  /** The inner loop over j > i, adding to the running total. */
  method OverlapRowPenalty(layout: seq<Rect>, i: nat, start: real) returns (penalty: real)
    requires i < |layout|
    ensures penalty == start + OverlapRate * Sum(RowTo(layout, i, |layout|, FitnessCalculator.OverlapTerms()))
  {
    penalty := start;
    for j := i + 1 to |layout|
      invariant penalty == start + OverlapRate * Sum(RowTo(layout, i, j, FitnessCalculator.OverlapTerms()))
    {
      var rect1, rect2 := layout[i], layout[j];
      SumRowToStep(layout, i, j, FitnessCalculator.OverlapTerms());
      if Overlaps(rect1, rect2) {
        SumSingle(OverlapArea(rect1, rect2));
        penalty := penalty + OverlapArea(rect1, rect2) * OverlapRate;
      }
    }
  }

  // ---------------------------------------------------------------- fixed-zone penalty

  /** The area the layout shares with the generator's fixed zones, summed over every (rectangle, zone) pair. */
  function ZoneIntrusion(site: Site, layout: seq<Rect>): real
  {
    Sum(Product(layout, site.zones, FitnessCalculator.OverlapTerms()))
  }

  /** No rectangle overlaps a fixed zone of the generator. */
  predicate ClearOfZones(site: Site, layout: seq<Rect>)
  {
    forall k, z :: 0 <= k < |layout| && 0 <= z < |site.zones| ==> !Overlaps(layout[k], site.zones[z])
  }

  /** `_calculate_fixed_zone_penalty`: 50 per unit of area inside a zone. */
  method CalculateFixedZonePenalty(site: Site, layout: seq<Rect>) returns (penalty: real)
    ensures penalty == ZoneRate * ZoneIntrusion(site, layout)
  {
    penalty := 0.0;
    for i := 0 to |layout|
      invariant penalty == ZoneRate * Sum(ProductRows(layout, site.zones, i, FitnessCalculator.OverlapTerms()))
    {
      SumProductRowsStep(layout, site.zones, i, FitnessCalculator.OverlapTerms());
      Scale(ZoneRate, Sum(ProductRows(layout, site.zones, i, FitnessCalculator.OverlapTerms())),
            Sum(Across(layout[i], site.zones, |site.zones|, FitnessCalculator.OverlapTerms())));
      penalty := ZoneRowPenalty(layout[i], site.zones, penalty);
    }
  }

  /** The inner loop over the zones for one rectangle, adding to the running total. */
  method ZoneRowPenalty(rect: Rect, zones: seq<Rect>, start: real) returns (penalty: real)
    ensures penalty == start + ZoneRate * Sum(Across(rect, zones, |zones|, FitnessCalculator.OverlapTerms()))
  {
    penalty := start;
    for j := 0 to |zones|
      invariant penalty == start + ZoneRate * Sum(Across(rect, zones, j, FitnessCalculator.OverlapTerms()))
    {
      SumAcrossStep(rect, zones, j, FitnessCalculator.OverlapTerms());
      if Overlaps(rect, zones[j]) {
        SumSingle(OverlapArea(rect, zones[j]));
        penalty := penalty + OverlapArea(rect, zones[j]) * ZoneRate;
      }
    }
  }

  /**
   * The zone intrusion is never negative and is 0 for a layout clear of the zones; when
   * rectangles and zones have positive size it is 0 exactly then.
   */
  lemma {:induction false} ZoneIntrusionSpec(site: Site, layout: seq<Rect>)
    ensures ZoneIntrusion(site, layout) >= 0.0
    ensures ClearOfZones(site, layout) ==> ZoneIntrusion(site, layout) == 0.0
    ensures FitnessCalculator.AllPositive(layout) && FitnessCalculator.AllPositive(site.zones) ==>
      (ZoneIntrusion(site, layout) == 0.0 <==> ClearOfZones(site, layout))
  {
    var f := FitnessCalculator.OverlapTerms();
    var terms := Product(layout, site.zones, f);
    forall v | v in terms
      ensures v >= 0.0 && (FitnessCalculator.AllPositive(layout) && FitnessCalculator.AllPositive(site.zones) ==> v > 0.0)
    {
      var a, b := ProductWitness(layout, site.zones, f, v);
    }
    assert forall k :: 0 <= k < |terms| ==> terms[k] in terms;
    SumNonNegative(terms);
    ProductEmpty(layout, site.zones, f);
    if FitnessCalculator.AllPositive(layout) && FitnessCalculator.AllPositive(site.zones) {
      SumOfPositives(terms);
    }
  }

  // ---------------------------------------------------------------- total penalty and search fitness

  /** `_calculate_total_penalty`: boundary, overlap and fixed-zone penalties added up. */
  function TotalPenalty(site: Site, layout: seq<Rect>): real
  {
    BoundaryPenalty(site, layout) + OverlapPenalty(layout) + ZoneRate * ZoneIntrusion(site, layout)
  }

  method CalculateTotalPenalty(site: Site, layout: seq<Rect>) returns (penalty: real)
    ensures penalty == TotalPenalty(site, layout)
  {
    penalty := 0.0;
    var boundary := CalculateBoundaryPenalty(site, layout);
    penalty := penalty + boundary;
    var overlap := CalculateOverlapPenalty(layout);
    penalty := penalty + overlap;
    var zone := CalculateFixedZonePenalty(site, layout);
    penalty := penalty + zone;
  }

  /** A layout that fits the site, overlaps nothing and stays clear of the zones. */
  predicate Feasible(site: Site, layout: seq<Rect>)
  {
    PairwiseDisjoint(layout) && InSite(site, layout) && ClearOfZones(site, layout)
  }

  /**
   * The total penalty is never negative and is 0 for a feasible layout; when rectangles and
   * zones have positive size it is 0 exactly for a feasible layout.
   */
  lemma {:induction false} TotalPenaltySpec(site: Site, layout: seq<Rect>)
    ensures TotalPenalty(site, layout) >= 0.0
    ensures Feasible(site, layout) ==> TotalPenalty(site, layout) == 0.0
    ensures FitnessCalculator.AllPositive(layout) && FitnessCalculator.AllPositive(site.zones) ==>
      (TotalPenalty(site, layout) == 0.0 <==> Feasible(site, layout))
  {
    BoundaryPenaltySpec(site, layout, |layout|);
    FitnessCalculator.OverlapPenaltySpec(layout);
    ZoneIntrusionSpec(site, layout);
  }

  /** `_evaluate_solution_with_penalties`: the calculator's fitness less the total penalty. */
  function SearchFitness(c: FitnessCalculator.Calculator, site: Site, layout: seq<Rect>): real
  {
    FitnessCalculator.Fitness(c, layout) - TotalPenalty(site, layout)
  }

  method EvaluateSolutionWithPenalties(c: FitnessCalculator.Calculator, site: Site, layout: seq<Rect>) returns (fitness: real)
    ensures fitness == SearchFitness(c, site, layout)
  {
    var base := FitnessCalculator.CalculateFitness(c, layout);
    var penalty := CalculateTotalPenalty(site, layout);
    fitness := base - penalty;
  }

  /** The calculator and the generator describe the same site and zones. */
  predicate SameSite(c: FitnessCalculator.Calculator, site: Site)
  {
    c.width == site.width && c.height == site.height && c.zones == site.zones
  }

  /**
   * The search never raises a fitness and leaves it alone exactly when there is no penalty;
   * when calculator and generator agree on the site, it keeps the calculator's sign: a
   * non-empty layout of positive sizes scores at least 0 exactly when it is feasible.
   */
  lemma {:induction false} SearchFitnessSpec(c: FitnessCalculator.Calculator, site: Site, layout: seq<Rect>)
    ensures SearchFitness(c, site, layout) == FitnessCalculator.Fitness(c, layout) <==> TotalPenalty(site, layout) == 0.0
    ensures SearchFitness(c, site, layout) <= FitnessCalculator.Fitness(c, layout)
    ensures SameSite(c, site) && layout != [] && FitnessCalculator.AllPositive(layout) && FitnessCalculator.AllPositive(site.zones) ==>
      (SearchFitness(c, site, layout) >= 0.0 <==> Feasible(site, layout))
  {
    TotalPenaltySpec(site, layout);
    if SameSite(c, site) && layout != [] && FitnessCalculator.AllPositive(layout) && FitnessCalculator.AllPositive(site.zones) {
      FitnessCalculator.FitnessFeasible(c, layout);
      assert FitnessCalculator.WithinSite(c, layout) <==> InSite(site, layout);
      assert FitnessCalculator.ClearOfZones(c, layout) <==> ClearOfZones(site, layout);
    }
  }

  // ---------------------------------------------------------------- early termination

  /** `max(xs)` of a non-empty list. */
  function MaxOf(xs: seq<real>): real
    requires xs != []
  {
    if |xs| == 1 then xs[0] else Max(MaxOf(xs[..|xs| - 1]), xs[|xs| - 1])
  }

  /** `max` returns an element no smaller than any other. */
  lemma {:induction false} MaxOfSpec(xs: seq<real>)
    requires xs != []
    ensures forall k :: 0 <= k < |xs| ==> xs[k] <= MaxOf(xs)
    ensures exists k :: 0 <= k < |xs| && xs[k] == MaxOf(xs)
  {
    if |xs| > 1 {
      var init, last := xs[..|xs| - 1], xs[|xs| - 1];
      MaxOfSpec(init);
      assert MaxOf(xs) == Max(MaxOf(init), last);
      forall k | 0 <= k < |xs|
        ensures xs[k] <= MaxOf(xs)
      {
        if k < |init| {
          assert init[k] == xs[k];
        }
      }
      var k :| 0 <= k < |init| && init[k] == MaxOf(init);
      if MaxOf(xs) == MaxOf(init) {
        assert xs[k] == MaxOf(xs);
      } else {
        assert xs[|xs| - 1] == MaxOf(xs);
      }
    } else {
      assert xs[0] == MaxOf(xs);
    }
  }

  /**
   * `_should_early_terminate`, given the number of high-quality solutions, the iterations run,
   * the number of combinations, the wanted number of solutions and the fitness history. The
   * progress tests `iteration < total * 0.1`, `>= total * 0.5` and `>= total * 0.3` are
   * written over the integers, which is what they are on exact numbers.
   */
  predicate ShouldEarlyTerminate(highQuality: nat, iteration: nat, total: nat, target: int, history: seq<real>)
  {
    if 10 * iteration < total then false
    else if highQuality >= target * 2 then true
    else if 2 * iteration >= total && highQuality >= target then true
    else if |history| > 100 && 10 * iteration >= 3 * total then
      MaxOf(history[|history| - 50..]) < MaxOf(history) * 0.95 && highQuality > 0
    else false
  }

  /**
   * The search never stops before a tenth of the combinations; from then on twice the target
   * stops it, and from half way the target does; with a positive target it never stops
   * without a high-quality solution; short of the target it stops only on a plateau of the
   * last 50 fitness values, after 30% and more than 100 recorded values; and more
   * high-quality solutions never undo a decision to stop.
   */
  lemma {:induction false} EarlyTerminationSpec(highQuality: nat, more: nat, iteration: nat, total: nat, target: int, history: seq<real>)
    ensures 10 * iteration < total ==> !ShouldEarlyTerminate(highQuality, iteration, total, target, history)
    ensures 10 * iteration >= total && highQuality >= 2 * target ==> ShouldEarlyTerminate(highQuality, iteration, total, target, history)
    ensures 2 * iteration >= total && highQuality >= target ==> ShouldEarlyTerminate(highQuality, iteration, total, target, history)
    ensures target > 0 && highQuality == 0 ==> !ShouldEarlyTerminate(highQuality, iteration, total, target, history)
    ensures ShouldEarlyTerminate(highQuality, iteration, total, target, history) && highQuality < target ==>
      |history| > 100 && 10 * iteration >= 3 * total && highQuality > 0 &&
      MaxOf(history[|history| - 50..]) < MaxOf(history) * 0.95
    ensures ShouldEarlyTerminate(highQuality, iteration, total, target, history) ==>
      ShouldEarlyTerminate(highQuality + more, iteration, total, target, history)
  {
  }

  // ---------------------------------------------------------------- _finalize_results

  function IsConstraintValid(): Solution -> bool
  {
    (s: Solution) => s.constraintValid
  }

  /** Invalid, but among the solutions that cross the site boundary. */
  function IsBoundaryOnly(): Solution -> bool
  {
    (s: Solution) => !s.constraintValid && s.boundaryViolations
  }

  /** `s not in valid and s not in boundary`, decided by equality as Python's `in` on lists does. */
  function NotListed(valid: seq<Solution>, boundary: seq<Solution>): Solution -> bool
  {
    (s: Solution) => s !in valid && s !in boundary
  }

  /** Neither valid nor crossing the boundary. */
  function IsOther(): Solution -> bool
  {
    (s: Solution) => !s.constraintValid && !s.boundaryViolations
  }

  /** The tier a solution is returned in: 0 constraint-valid, 1 boundary crossing, 2 the rest. */
  function Tier(s: Solution): nat
  {
    if s.constraintValid then 0 else if s.boundaryViolations then 1 else 2
  }

  /** Tiers never decrease along the list, and within a tier fitness never increases. */
  predicate TierOrdered(xs: seq<Solution>)
  {
    forall i, j :: 0 <= i < j < |xs| ==>
      Tier(xs[i]) < Tier(xs[j]) || (Tier(xs[i]) == Tier(xs[j]) && xs[i].fitness >= xs[j].fitness)
  }

  /**
   * The filling step of `_finalize_results`: up to maxSolutions valid solutions, topped up
   * from the boundary-crossing ones and then from the others, cut to maxSolutions.
   */
  function Fill(valid: seq<Solution>, boundary: seq<Solution>, others: seq<Solution>, maxSolutions: int): seq<Solution>
  {
    var first := SliceTo(valid, maxSolutions);
    var second := if |first| < maxSolutions then first + SliceTo(boundary, maxSolutions - |first|) else first;
    var third := if |second| < maxSolutions then second + SliceTo(others, maxSolutions - |second|) else second;
    SliceTo(third, maxSolutions)
  }

  /** Filling takes the first maxSolutions of the three lists in turn; a negative maxSolutions keeps a prefix of the first. */
  lemma {:induction false} FillSpec(valid: seq<Solution>, boundary: seq<Solution>, others: seq<Solution>, maxSolutions: int)
    ensures maxSolutions >= 0 ==> Fill(valid, boundary, others, maxSolutions) == Take(valid + boundary + others, maxSolutions)
    ensures maxSolutions < 0 ==> Fill(valid, boundary, others, maxSolutions) == valid[..|Fill(valid, boundary, others, maxSolutions)|]
  {
    var r := Fill(valid, boundary, others, maxSolutions);
    var all := valid + boundary + others;
    if maxSolutions >= 0 {
      var m: nat := maxSolutions;
      if |valid| >= m {
        assert r == valid[..m];
        assert all[..m] == valid[..m];
      } else if |boundary| >= m - |valid| {
        assert r == valid + boundary[..m - |valid|];
        assert all[..m] == valid + boundary[..m - |valid|];
      } else if |others| >= m - |valid| - |boundary| {
        assert r == valid + boundary + others[..m - |valid| - |boundary|];
        assert all[..m] == valid + boundary + others[..m - |valid| - |boundary|];
      } else {
        assert r == all;
      }
    } else {
      var first := SliceTo(valid, maxSolutions);
      assert r == SliceTo(first, maxSolutions);
    }
  }

  /** The result of `_finalize_results(solutions, maxSolutions)`. */
  function Finalized(solutions: seq<Solution>, maxSolutions: int): seq<Solution>
  {
    if solutions == [] then []
    else
      var sorted := SortDesc(solutions, FitnessOf());
      var valid, boundary := Filter(sorted, IsConstraintValid()), Filter(sorted, IsBoundaryOnly());
      Fill(valid, boundary, Filter(sorted, NotListed(valid, boundary)), maxSolutions)
  }

  /**
   * `_finalize_results`: sort by fitness, split off the constraint-valid and the boundary
   * crossing solutions, then fill up to maxSolutions tier by tier.
   */
  method FinalizeResults(solutions: seq<Solution>, maxSolutions: int) returns (final: seq<Solution>)
    ensures final == Finalized(solutions, maxSolutions)
  {
    if solutions == [] {
      return [];
    }
    var sorted := SortDesc(solutions, FitnessOf());
    var valid := [];
    var boundary := [];
    for k := 0 to |sorted|
      invariant valid == Filter(sorted[..k], IsConstraintValid())
      invariant boundary == Filter(sorted[..k], IsBoundaryOnly())
    {
      assert sorted[..k + 1] == sorted[..k] + [sorted[k]];
      var solution := sorted[k];
      if solution.constraintValid {
        valid := valid + [solution];
      } else if solution.boundaryViolations {
        boundary := boundary + [solution];
      }
    }
    assert sorted[..|sorted|] == sorted;
    final := SliceTo(valid, maxSolutions);
    if |final| < maxSolutions {
      var remaining := maxSolutions - |final|;
      final := final + SliceTo(boundary, remaining);
    }
    if |final| < maxSolutions {
      var remaining := maxSolutions - |final|;
      var others := Filter(sorted, NotListed(valid, boundary));
      final := final + SliceTo(others, remaining);
    }
    final := SliceTo(final, maxSolutions);
  }

  /** On the sorted solutions, the equality test keeps exactly the solutions neither valid nor crossing the boundary. */
  lemma {:induction false} OthersAreTierTwo(sorted: seq<Solution>)
    ensures Filter(sorted, NotListed(Filter(sorted, IsConstraintValid()), Filter(sorted, IsBoundaryOnly()))) ==
            Filter(sorted, IsOther())
  {
    var valid, boundary := Filter(sorted, IsConstraintValid()), Filter(sorted, IsBoundaryOnly());
    forall k | 0 <= k < |sorted|
      ensures NotListed(valid, boundary)(sorted[k]) == IsOther()(sorted[k])
    {
      FilterMember(sorted, IsConstraintValid(), sorted[k]);
      FilterMember(sorted, IsBoundaryOnly(), sorted[k]);
      if sorted[k] in valid {
        FilterMember(sorted, IsConstraintValid(), sorted[k]);
      }
    }
    FilterCongruent(sorted, NotListed(valid, boundary), IsOther());
  }

  /** The reference order: the valid solutions, then those that only cross the boundary, then the rest, each tier by fitness. */
  function Tiered(solutions: seq<Solution>): seq<Solution>
  {
    var sorted := SortDesc(solutions, FitnessOf());
    Filter(sorted, IsConstraintValid()) + Filter(sorted, IsBoundaryOnly()) + Filter(sorted, IsOther())
  }

  lemma {:induction false} TierConstant(xs: seq<Solution>, p: Solution -> bool, t: nat)
    requires forall s :: p(s) ==> Tier(s) == t
    ensures forall k :: 0 <= k < |Filter(xs, p)| ==> Tier(Filter(xs, p)[k]) == t
  {
    forall k | 0 <= k < |Filter(xs, p)|
      ensures Tier(Filter(xs, p)[k]) == t
    {
      FilterMember(xs, p, Filter(xs, p)[k]);
    }
  }

  /** The reference order is tier-ordered and holds every solution, no more and no fewer. */
  lemma {:induction false} TieredSpec(solutions: seq<Solution>)
    ensures TierOrdered(Tiered(solutions))
    ensures |Tiered(solutions)| == |solutions|
    ensures forall s :: s in Tiered(solutions) <==> s in solutions
  {
    var sorted := SortDesc(solutions, FitnessOf());
    SortDescSorted(solutions, FitnessOf());
    var v, b, o := Filter(sorted, IsConstraintValid()), Filter(sorted, IsBoundaryOnly()), Filter(sorted, IsOther());
    FilterSorted(sorted, IsConstraintValid(), FitnessOf());
    FilterSorted(sorted, IsBoundaryOnly(), FitnessOf());
    FilterSorted(sorted, IsOther(), FitnessOf());
    TierConstant(sorted, IsConstraintValid(), 0);
    TierConstant(sorted, IsBoundaryOnly(), 1);
    TierConstant(sorted, IsOther(), 2);
    var all := v + b + o;
    forall i, j | 0 <= i < j < |all|
      ensures Tier(all[i]) < Tier(all[j]) || (Tier(all[i]) == Tier(all[j]) && all[i].fitness >= all[j].fitness)
    {
      if j < |v| {
        assert all[i] == v[i] && all[j] == v[j];
      } else if i >= |v| + |b| {
        assert all[i] == o[i - |v| - |b|] && all[j] == o[j - |v| - |b|];
      } else if |v| <= i && j < |v| + |b| {
        assert all[i] == b[i - |v|] && all[j] == b[j - |v|];
      }
    }
    FilterPartition(sorted, IsConstraintValid(), IsBoundaryOnly(), IsOther());
    forall s
      ensures s in all <==> s in solutions
    {
      FilterMember(sorted, IsConstraintValid(), s);
      FilterMember(sorted, IsBoundaryOnly(), s);
      FilterMember(sorted, IsOther(), s);
    }
  }

  /**
   * For a non-negative maxSolutions the final list is the first maxSolutions of the reference
   * order; a negative one, which Python's slicing reads from the end, leaves a prefix of the
   * valid solutions.
   */
  lemma {:induction false} FinalizedTiered(solutions: seq<Solution>, maxSolutions: int)
    ensures maxSolutions >= 0 ==> Finalized(solutions, maxSolutions) == Take(Tiered(solutions), maxSolutions)
    ensures maxSolutions < 0 ==>
      var valid := Filter(SortDesc(solutions, FitnessOf()), IsConstraintValid());
      Finalized(solutions, maxSolutions) == valid[..|Finalized(solutions, maxSolutions)|]
  {
    if solutions != [] {
      var sorted := SortDesc(solutions, FitnessOf());
      var valid, boundary := Filter(sorted, IsConstraintValid()), Filter(sorted, IsBoundaryOnly());
      OthersAreTierTwo(sorted);
      FillSpec(valid, boundary, Filter(sorted, IsOther()), maxSolutions);
    }
  }

  /** t is returned ahead of s: a better tier, or the same tier and no lower fitness. */
  predicate Ahead(t: Solution, s: Solution)
  {
    Tier(t) < Tier(s) || (Tier(t) == Tier(s) && t.fitness >= s.fitness)
  }

  /** A prefix of a tier-ordered list is tier-ordered, and everything after it is behind everything in it. */
  lemma {:induction false} TierOrderedPrefix(all: seq<Solution>, n: nat)
    requires TierOrdered(all) && n <= |all|
    ensures TierOrdered(all[..n])
    ensures forall s :: s in all && s !in all[..n] ==> forall t :: t in all[..n] ==> Ahead(t, s)
  {
    var r := all[..n];
    assert forall i :: 0 <= i < n ==> r[i] == all[i];
    forall s, t | s in all && s !in r && t in r
      ensures Ahead(t, s)
    {
      var j :| 0 <= j < |all| && all[j] == s;
      var i :| 0 <= i < n && r[i] == t;
      assert j >= n;
    }
  }

  /**
   * `_finalize_results` returns solutions it was given, tier-ordered; for a non-negative
   * maxSolutions it returns min(maxSolutions, |solutions|) of them, and a solution is left
   * out only when the list is full of solutions ahead of it.
   */
  lemma {:induction false} FinalizedSpec(solutions: seq<Solution>, maxSolutions: int)
    ensures maxSolutions >= 0 ==>
      |Finalized(solutions, maxSolutions)| == if maxSolutions < |solutions| then maxSolutions else |solutions|
    ensures forall s :: s in Finalized(solutions, maxSolutions) ==> s in solutions
    ensures TierOrdered(Finalized(solutions, maxSolutions))
    ensures maxSolutions >= 0 ==> forall s :: s in solutions && s !in Finalized(solutions, maxSolutions) ==>
      |Finalized(solutions, maxSolutions)| == maxSolutions && forall t :: t in Finalized(solutions, maxSolutions) ==> Ahead(t, s)
  {
    if maxSolutions >= 0 {
      FinalizedTiered(solutions, maxSolutions);
      TieredSpec(solutions);
      var all, r := Tiered(solutions), Finalized(solutions, maxSolutions);
      TierOrderedPrefix(all, |r|);
      assert r == all[..|r|];
    } else {
      // a negative maxSolutions cuts the valid solutions short: a prefix of them in fitness order
      FinalizedTiered(solutions, maxSolutions);
      var r := Finalized(solutions, maxSolutions);
      SortDescSorted(solutions, FitnessOf());
      var sorted := SortDesc(solutions, FitnessOf());
      var valid := Filter(sorted, IsConstraintValid());
      FilterSorted(sorted, IsConstraintValid(), FitnessOf());
      TierConstant(sorted, IsConstraintValid(), 0);
      SortedPrefix(valid, |r|, FitnessOf());
      forall s | s in r
        ensures s in solutions && s.constraintValid
      {
        FilterMember(sorted, IsConstraintValid(), s);
      }
      forall i, j | 0 <= i < j < |r|
        ensures Tier(r[i]) == Tier(r[j]) && r[i].fitness >= r[j].fitness
      {
        assert r[i] == valid[i] && r[j] == valid[j];
      }
    }
  }

  // ---------------------------------------------------------------- one evaluated combination

  /** The handler checks the same site and zones as the generator. */
  predicate HandlerSite(h: ConstraintHandler.Handler, site: Site)
  {
    h.width == site.width && h.height == site.height && h.zones == site.zones
  }

  /**
   * The solution `_evaluate_combinations` records for one finished layout: the penalised
   * fitness, the handler's verdict, the boundary flag, the layout code and the total penalty.
   * It never scores above the calculator and carries a non-negative penalty; a solution the
   * handler accepts, when handler and generator share the site, crosses no boundary, carries
   * no penalty and keeps the calculator's fitness.
   */
  function SolutionOf(c: FitnessCalculator.Calculator, h: ConstraintHandler.Handler, site: Site, show: real -> string,
                      layout: seq<Rect>, generation: nat): (s: Solution)
    ensures s.layout == layout && s.generation == generation
    ensures s.penaltyScore >= 0.0 && s.fitness == FitnessCalculator.Fitness(c, layout) - s.penaltyScore
    ensures s.boundaryViolations <==> !InSite(site, layout)
    ensures HandlerSite(h, site) && s.constraintValid ==>
      !s.boundaryViolations && s.penaltyScore == 0.0 && s.fitness == FitnessCalculator.Fitness(c, layout)
  {
    TotalPenaltySpec(site, layout);
    assert HandlerSite(h, site) && ConstraintHandler.ValidLayout(h, layout) ==> InSite(site, layout) && ClearOfZones(site, layout);
    Solution(layout, SearchFitness(c, site, layout), LayoutGenerator.LayoutCode(layout, show), "improved_exhaustive_search",
             generation, ConstraintHandler.ValidLayout(h, layout), !InSite(site, layout), TotalPenalty(site, layout), map[])
  }

  /** The solution for one main-process arrangement, with its sub processes placed on the 25 m grid. */
  function SolutionFor(c: FitnessCalculator.Calculator, h: ConstraintHandler.Handler, site: Site, show: real -> string,
                       mainLayout: seq<Rect>, subs: seq<LayoutGenerator.Process>, generation: nat): Solution
  {
    SolutionOf(c, h, site, show, LayoutGenerator.SubLayout(site, c.adjacencyWeights, LayoutGeneratorImproved.ImprovedGrid, mainLayout, subs),
               generation)
  }

  /** `SolutionFor` as a function of the arrangement and its number. */
  function Evaluator(c: FitnessCalculator.Calculator, h: ConstraintHandler.Handler, site: Site, show: real -> string,
                     subs: seq<LayoutGenerator.Process>): (seq<Rect>, nat) -> Solution
  {
    (mainLayout: seq<Rect>, generation: nat) => SolutionFor(c, h, site, show, mainLayout, subs, generation)
  }

  /** A high-quality solution: constraint-valid and above the quality threshold. */
  function HighQuality(): Solution -> bool
  {
    (s: Solution) => s.constraintValid && s.fitness > QualityThreshold
  }

  /**
   * What the fitness history gains over a run: each fitness twice, once from
   * `update_best_solutions` and once from the loop itself.
   */
  function DoubledFitness(solutions: seq<Solution>): seq<real>
  {
    if solutions == [] then [] else DoubledFitness(solutions[..|solutions| - 1]) + [solutions[|solutions| - 1].fitness, solutions[|solutions| - 1].fitness]
  }

  lemma {:induction false} DoubledFitnessSpec(solutions: seq<Solution>)
    ensures |DoubledFitness(solutions)| == 2 * |solutions|
    ensures forall k :: 0 <= k < |solutions| ==>
      DoubledFitness(solutions)[2 * k] == solutions[k].fitness && DoubledFitness(solutions)[2 * k + 1] == solutions[k].fitness
  {
    if solutions != [] {
      var init := solutions[..|solutions| - 1];
      DoubledFitnessSpec(init);
      assert forall k :: 0 <= k < |init| ==> init[k] == solutions[k];
    }
  }

  /** The loop stops after the solutions so far, with the history as it was before the loop. */
  predicate Stops(early: bool, solutions: seq<Solution>, total: nat, target: int, history: seq<real>)
  {
    early && ShouldEarlyTerminate(|Filter(solutions, HighQuality())|, |solutions|, total, target, history + DoubledFitness(solutions))
  }

  /** One more solution adds its fitness twice to the history, one pool update and, if it is high quality, itself to the high-quality list. */
  lemma {:induction false} SnocSteps(solutions: seq<Solution>, s: Solution, pool: seq<Solution>, maxKeep: int)
    ensures DoubledFitness(solutions + [s]) == DoubledFitness(solutions) + [s.fitness, s.fitness]
    ensures PoolAfter(pool, solutions + [s], maxKeep) == Kept(PoolAfter(pool, solutions, maxKeep), s, maxKeep)
    ensures Filter(solutions + [s], HighQuality()) == Filter(solutions, HighQuality()) + When(HighQuality()(s), s)
  {
    assert (solutions + [s])[..|solutions|] == solutions;
  }

  /** The loop went on after every non-empty proper prefix of the solutions. */
  predicate Continued(early: bool, solutions: seq<Solution>, total: nat, target: int, history: seq<real>)
    decreases |solutions|
  {
    |solutions| <= 1 ||
    (var init := solutions[..|solutions| - 1];
     Continued(early, init, total, target, history) && !Stops(early, init, total, target, history))
  }

  /** Going on after every proper prefix is not stopping after any of them. */
  lemma {:induction false} ContinuedSpec(early: bool, solutions: seq<Solution>, total: nat, target: int, history: seq<real>)
    ensures Continued(early, solutions, total, target, history) <==>
      forall n :: 0 < n < |solutions| ==> !Stops(early, solutions[..n], total, target, history)
  {
    if |solutions| > 1 {
      var init := solutions[..|solutions| - 1];
      ContinuedSpec(early, init, total, target, history);
      assert forall n :: 0 < n < |init| ==> init[..n] == solutions[..n];
    }
  }

  /** `main_layout_combinations[:max_combinations]` when `max_combinations` is set, non-zero and below the count. */
  function Truncated(combos: seq<seq<Rect>>, limit: Option<int>): (r: seq<seq<Rect>>)
    ensures |r| <= |combos| && r == combos[..|r|]
    ensures limit.None? || limit == Some(0) ==> r == combos
    ensures limit.Some? && limit.value > 0 ==> |r| == if limit.value < |combos| then limit.value else |combos|
    ensures limit.Some? && limit.value < 0 ==> |r| == if |combos| + limit.value >= 0 then |combos| + limit.value else 0
  {
    if limit.Some? && limit.value != 0 && |combos| > limit.value then SliceTo(combos, limit.value) else combos
  }

  /**
   * The loop of `_evaluate_combinations` after some arrangements, from the history and pool
   * it started with: the solutions of the first arrangements in order, the high-quality ones
   * among them, no stop before the last of them, `stop` saying whether the rule fired after
   * the last, and each solution recorded in the pool and twice in the history.
   */
  predicate Tracked(evaluate: (seq<Rect>, nat) -> Solution, combos: seq<seq<Rect>>, early: bool, target: int,
                    history: seq<real>, pool: seq<Solution>, solutions: seq<Solution>, highQuality: seq<Solution>, stop: bool,
                    historyNow: seq<real>, poolNow: seq<Solution>)
  {
    |solutions| <= |combos| &&
    solutions == Indexed(combos, |solutions|, evaluate) &&
    highQuality == Filter(solutions, HighQuality()) &&
    Continued(early, solutions, |combos|, target, history) &&
    stop == (solutions != [] && Stops(early, solutions, |combos|, target, history)) &&
    historyNow == history + DoubledFitness(solutions) &&
    poolNow == PoolAfter(pool, solutions, target * 3)
  }

  // ---------------------------------------------------------------- the optimizer

  /**
   * `ImprovedExhaustiveSearchOptimizer`: the engine state it inherits, the site of its
   * layout generator and the number formatting of its layout codes.
   */
  class ImprovedExhaustiveSearch {
    const engine: Engine
    const site: Site
    const show: real -> string

    constructor (engine: Engine, site: Site, show: real -> string)
      ensures this.engine == engine && this.site == site && this.show == show
    {
      this.engine := engine;
      this.site := site;
      this.show := show;
    }

    /** One pass of the loop body of `_evaluate_combinations`, up to the solution it records. */
    method EvaluateCombination(mainLayout: seq<Rect>, subs: seq<LayoutGenerator.Process>, generation: nat) returns (solution: Solution)
      ensures solution == SolutionFor(engine.calculator, engine.handler, site, show, mainLayout, subs, generation)
    {
      var layout := LayoutGeneratorImproved.PlaceSubProcessesOptimally(site, mainLayout, subs, engine.calculator.adjacencyWeights);
      var fitness := EvaluateSolutionWithPenalties(engine.calculator, site, layout);
      var isConstraintValid := ConstraintHandler.IsValid(engine.handler, layout);
      var hasBoundaryViolations := HasBoundaryViolations(site, layout);
      var code := LayoutGenerator.GenerateLayoutCode(layout, show);
      var penalty := CalculateTotalPenalty(site, layout);
      solution := Solution(layout, fitness, code, "improved_exhaustive_search", generation,
                           isConstraintValid, hasBoundaryViolations, penalty, map[]);
    }

    /** `Tracked` for this optimizer's evaluation and its engine's history and pool, with the pool in order. */
    ghost predicate Progress(combos: seq<seq<Rect>>, subs: seq<LayoutGenerator.Process>, early: bool, maxSolutions: int,
                             history: seq<real>, pool: seq<Solution>, solutions: seq<Solution>, highQuality: seq<Solution>, stop: bool)
      reads engine
    {
      Tracked(Evaluator(engine.calculator, engine.handler, site, show, subs), combos, early, maxSolutions, history, pool,
              solutions, highQuality, stop, engine.fitnessHistory, engine.bestSolutions) &&
      engine.Valid()
    }

    /**
     * One pass of the loop of `_evaluate_combinations` over the next arrangement: record its
     * solution, track it if it is high quality, update the pool and the history, and test
     * the early-termination rule.
     */
    method Step(combos: seq<seq<Rect>>, subs: seq<LayoutGenerator.Process>, early: bool, maxSolutions: int,
                solutions: seq<Solution>, highQuality: seq<Solution>, ghost history: seq<real>, ghost pool: seq<Solution>)
      returns (solutions': seq<Solution>, highQuality': seq<Solution>, stop: bool)
      requires |solutions| < |combos|
      requires Progress(combos, subs, early, maxSolutions, history, pool, solutions, highQuality, false)
      modifies engine
      ensures |solutions'| == |solutions| + 1
      ensures Progress(combos, subs, early, maxSolutions, history, pool, solutions', highQuality', stop)
      ensures engine.optimizationHistory == old(engine.optimizationHistory) && engine.startTime == old(engine.startTime)
    {
      var i := |solutions|;
      var solution := EvaluateCombination(combos[i], subs, i + 1);
      ghost var evaluate := Evaluator(engine.calculator, engine.handler, site, show, subs);
      assert solution == evaluate(combos[i], i + 1);
      // the loop stays tracked: one more solution, history entry pair and pool insertion
      SnocSteps(solutions, solution, pool, maxSolutions * 3);
      assert (solutions + [solution])[..i] == solutions;
      assert engine.fitnessHistory + [solution.fitness, solution.fitness] == history + DoubledFitness(solutions + [solution]);
      solutions' := solutions + [solution];
      highQuality' := highQuality;
      if solution.constraintValid && solution.fitness > QualityThreshold {
        highQuality' := highQuality' + [solution];
      }
      RecordSolution(engine, solution, maxSolutions * 3);
      stop := early && ShouldEarlyTerminate(|highQuality'|, i + 1, |combos|, maxSolutions, engine.fitnessHistory);
    }

    /**
     * `_evaluate_combinations`: the k-th solution comes from the k-th arrangement and is
     * numbered k + 1; the loop runs to the end unless the early-termination rule fires, and
     * it stops at the first point where it does. Every solution goes through the engine's
     * pool (kept at three times maxSolutions), and its fitness is recorded twice.
     */
    method EvaluateCombinations(combos: seq<seq<Rect>>, subs: seq<LayoutGenerator.Process>, early: bool, maxSolutions: int)
      returns (solutions: seq<Solution>)
      requires engine.Valid()
      modifies engine
      ensures |solutions| <= |combos|
      ensures solutions == Indexed(combos, |solutions|, Evaluator(engine.calculator, engine.handler, site, show, subs))
      ensures Continued(early, solutions, |combos|, maxSolutions, old(engine.fitnessHistory))
      ensures |solutions| < |combos| ==> Stops(early, solutions, |combos|, maxSolutions, old(engine.fitnessHistory))
      ensures engine.fitnessHistory == old(engine.fitnessHistory) + DoubledFitness(solutions)
      ensures engine.bestSolutions == PoolAfter(old(engine.bestSolutions), solutions, maxSolutions * 3)
      ensures engine.optimizationHistory == old(engine.optimizationHistory) && engine.startTime == old(engine.startTime)
      ensures engine.Valid()
    {
      ghost var history, pool := engine.fitnessHistory, engine.bestSolutions;
      solutions := [];
      assert engine.fitnessHistory == history + DoubledFitness(solutions);
      var highQuality := [];
      var stop := false;
      while |solutions| < |combos| && !stop
        invariant Progress(combos, subs, early, maxSolutions, history, pool, solutions, highQuality, stop)
        invariant engine.optimizationHistory == old(engine.optimizationHistory) && engine.startTime == old(engine.startTime)
        decreases |combos| - |solutions|, !stop
      {
        solutions, highQuality, stop := Step(combos, subs, early, maxSolutions, solutions, highQuality, history, pool);
      }
    }

    /**
     * `optimize`: generate the main-process arrangements, none for no main processes; cut them
     * to maxCombinations; evaluate them; and finalize up to maxSolutions solutions. The ghost
     * outputs name the arrangements generated and the solutions evaluated.
     */
    method Optimize(mains: seq<LayoutGenerator.Process>, subs: seq<LayoutGenerator.Process>, maxSolutions: int,
                    maxCombinations: Option<int>, early: bool, draw: nat -> (nat, nat, nat), swap: nat -> nat)
      returns (final: seq<Solution>, ghost generated: seq<seq<Rect>>, ghost evaluated: seq<Solution>)
      requires mains != [] ==> LayoutGeneratorImproved.HasExtent(site)
      requires engine.Valid()
      modifies engine
      ensures mains == [] ==> generated == [] && final == []
      ensures forall l :: l in generated ==> LayoutGeneratorImproved.MainLayoutShape(site, mains, l)
      ensures var combos := Truncated(generated, maxCombinations);
        |evaluated| <= |combos| &&
        evaluated == Indexed(combos, |evaluated|, Evaluator(engine.calculator, engine.handler, site, show, subs))
      ensures final == Finalized(evaluated, maxSolutions)
      ensures TierOrdered(final) && forall s :: s in final ==> s in evaluated
      ensures maxSolutions >= 0 ==> |final| <= maxSolutions
      ensures engine.Valid()
    {
      var mainLayoutCombinations := LayoutGeneratorImproved.GenerateMainLayoutCombinations(site, mains, draw, swap);
      generated := mainLayoutCombinations;
      if mainLayoutCombinations == [] {
        evaluated := [];
        FinalizedSpec(evaluated, maxSolutions);
        return [], generated, evaluated;
      }
      var combos := Truncated(mainLayoutCombinations, maxCombinations);
      var solutions := EvaluateCombinations(combos, subs, early, maxSolutions);
      evaluated := solutions;
      final := FinalizeResults(solutions, maxSolutions);
      FinalizedSpec(evaluated, maxSolutions);
    }
  }
}
