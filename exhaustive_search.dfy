/**
 * The baseline exhaustive search (`ExhaustiveSearchOptimizer`), run with the sequence layout
 * generator: every main-process arrangement gets its sub processes, a fitness reduced by
 * search-time penalties and the handler's verdict; counters keep how many arrangements were
 * evaluated, accepted, rejected and rejected while crossing the site boundary. At every 5%
 * checkpoint the search may stop once its pool holds enough constraint-valid solutions, and
 * it returns the best solutions of its pool by fitness.
 */
module ExhaustiveSearch {
  import opened Wrappers
  import opened Collect
  import opened Sorting
  import opened Geometry
  import FitnessCalculator
  import ConstraintHandler
  import LayoutGenerator
  import opened BaseEngine
  import Improved = ExhaustiveSearchImproved

  type Site = LayoutGenerator.Site

  // ---------------------------------------------------------------- overlap area

  /** `_calculate_overlap_area`: the extent two rectangles share along each axis, clamped at 0, multiplied. */
  function ClippedArea(a: Rect, b: Rect): real
  {
    Max(0.0, IntersectionWidth(a, b)) * Max(0.0, IntersectionHeight(a, b))
  }

  /**
   * The clipped area is never negative, the same in either order, and 0 for rectangles that
   * do not overlap (apart, or touching along an edge); for rectangles of positive size it is
   * positive exactly when they overlap and equals the geometry module's overlap area.
   */
  lemma {:induction false} ClippedAreaSpec(a: Rect, b: Rect)
    ensures ClippedArea(a, b) >= 0.0 && ClippedArea(a, b) == ClippedArea(b, a)
    ensures !Overlaps(a, b) ==> ClippedArea(a, b) == 0.0
    ensures PositiveSize(a) && PositiveSize(b) ==>
      (ClippedArea(a, b) > 0.0 <==> Overlaps(a, b)) && ClippedArea(a, b) == OverlapArea(a, b)
  {
    var iw, ih := Max(0.0, IntersectionWidth(a, b)), Max(0.0, IntersectionHeight(a, b));
    assert iw * ih >= 0.0;
    assert IntersectionWidth(a, b) == IntersectionWidth(b, a) && IntersectionHeight(a, b) == IntersectionHeight(b, a);
    if !Overlaps(a, b) {
      assert iw == 0.0 || ih == 0.0;
    }
    if PositiveSize(a) && PositiveSize(b) && Overlaps(a, b) {
      assert iw == IntersectionWidth(a, b) > 0.0 && ih == IntersectionHeight(a, b) > 0.0;
      assert iw * ih > 0.0;
    }
  }

  // ---------------------------------------------------------------- boundary penalty

  /** What one rectangle adds to `_calculate_boundary_penalty`: 10 per metre past each side, one side at a time. */
  function SideCharges(site: Site, r: Rect): real
  {
    (if r.x < 0.0 then Abs(r.x) * Improved.BoundaryRate else 0.0) +
    (if r.y < 0.0 then Abs(r.y) * Improved.BoundaryRate else 0.0) +
    (if Right(r) - site.width > 0.0 then (Right(r) - site.width) * Improved.BoundaryRate else 0.0) +
    (if Bottom(r) - site.height > 0.0 then (Bottom(r) - site.height) * Improved.BoundaryRate else 0.0)
  }

  /** `_calculate_boundary_penalty` over the first n rectangles. */
  function BoundaryPenaltyTo(site: Site, layout: seq<Rect>, n: nat): real
    requires n <= |layout|
  {
    if n == 0 then 0.0 else BoundaryPenaltyTo(site, layout, n - 1) + SideCharges(site, layout[n - 1])
  }

  function BoundaryPenalty(site: Site, layout: seq<Rect>): real
  {
    BoundaryPenaltyTo(site, layout, |layout|)
  }

  /** The loop of `_calculate_boundary_penalty`, testing the four sides in turn. */
  method CalculateBoundaryPenalty(site: Site, layout: seq<Rect>) returns (penalty: real)
    ensures penalty == BoundaryPenalty(site, layout)
  {
    penalty := 0.0;
    for i := 0 to |layout|
      invariant penalty == BoundaryPenaltyTo(site, layout, i)
    {
      var rect := layout[i];
      if rect.x < 0.0 {
        penalty := penalty + Abs(rect.x) * Improved.BoundaryRate;
      }
      if rect.y < 0.0 {
        penalty := penalty + Abs(rect.y) * Improved.BoundaryRate;
      }
      var rightExcess := rect.x + rect.w - site.width;
      if rightExcess > 0.0 {
        penalty := penalty + rightExcess * Improved.BoundaryRate;
      }
      var bottomExcess := rect.y + rect.h - site.height;
      if bottomExcess > 0.0 {
        penalty := penalty + bottomExcess * Improved.BoundaryRate;
      }
    }
  }

  /** Side by side or axis by axis, the charges for crossing the boundary come to the same. */
  lemma {:induction false} BoundaryPenaltyAgrees(site: Site, layout: seq<Rect>, n: nat)
    requires n <= |layout|
    ensures BoundaryPenaltyTo(site, layout, n) == Improved.BoundaryPenaltyTo(site, layout, n)
  {
    if n > 0 {
      BoundaryPenaltyAgrees(site, layout, n - 1);
    }
  }

  /**
   * The baseline boundary penalty is the improved search's: never negative, and 0 exactly
   * when every rectangle lies inside the site.
   */
  lemma {:induction false} BoundaryPenaltySpec(site: Site, layout: seq<Rect>)
    ensures BoundaryPenalty(site, layout) == Improved.BoundaryPenalty(site, layout)
    ensures BoundaryPenalty(site, layout) >= 0.0
    ensures BoundaryPenalty(site, layout) == 0.0 <==> Improved.InSite(site, layout)
  {
    BoundaryPenaltyAgrees(site, layout, |layout|);
    Improved.BoundaryPenaltySpec(site, layout, |layout|);
  }

  // ---------------------------------------------------------------- overlap and zone penalties

  /** What the pair (a, b) adds to the overlap and zone penalties: its clipped area, when positive. */
  function ClippedTerm(a: Rect, b: Rect): seq<real>
  {
    if ClippedArea(a, b) > 0.0 then [ClippedArea(a, b)] else []
  }

  function ClippedTerms(): (Rect, Rect) -> seq<real>
  {
    (a: Rect, b: Rect) => ClippedTerm(a, b)
  }

  /** `_calculate_overlap_penalty`: 100 per unit of clipped area, over all pairs i < j. */
  function OverlapPenalty(layout: seq<Rect>): real
  {
    Improved.OverlapRate * Sum(Pairs(layout, ClippedTerms()))
  }

  /** The nested loops of `_calculate_overlap_penalty`, with one running total. */
  method CalculateOverlapPenalty(layout: seq<Rect>) returns (penalty: real)
    ensures penalty == OverlapPenalty(layout)
  {
    penalty := 0.0;
    for i := 0 to |layout|
      invariant penalty == Improved.OverlapRate * Sum(Rows(layout, i, ClippedTerms()))
    {
      SumRowsStep(layout, i, ClippedTerms());
      Scale(Improved.OverlapRate, Sum(Rows(layout, i, ClippedTerms())), Sum(RowTo(layout, i, |layout|, ClippedTerms())));
      penalty := OverlapRowPenalty(layout, i, penalty);
    }
  }

  /** The inner loop over j > i, adding to the running total. */
  method OverlapRowPenalty(layout: seq<Rect>, i: nat, start: real) returns (penalty: real)
    requires i < |layout|
    ensures penalty == start + Improved.OverlapRate * Sum(RowTo(layout, i, |layout|, ClippedTerms()))
  {
    penalty := start;
    for j := i + 1 to |layout|
      invariant penalty == start + Improved.OverlapRate * Sum(RowTo(layout, i, j, ClippedTerms()))
    {
      SumRowToStep(layout, i, j, ClippedTerms());
      var overlapArea := ClippedArea(layout[i], layout[j]);
      if overlapArea > 0.0 {
        SumSingle(overlapArea);
        penalty := penalty + overlapArea * Improved.OverlapRate;
      }
    }
  }

  /** For rectangles of positive size a pair adds the same entry to the baseline and the calculator's overlap sums. */
  lemma {:induction false} ClippedTermsAgree(xs: seq<Rect>, ys: seq<Rect>)
    requires FitnessCalculator.AllPositive(xs) && FitnessCalculator.AllPositive(ys)
    ensures forall a, b :: a in xs && b in ys ==> ClippedTerms()(a, b) == FitnessCalculator.OverlapTerms()(a, b)
  {
    forall a, b | a in xs && b in ys
      ensures ClippedTerms()(a, b) == FitnessCalculator.OverlapTerms()(a, b)
    {
      var i :| 0 <= i < |xs| && xs[i] == a;
      var j :| 0 <= j < |ys| && ys[j] == b;
      ClippedAreaSpec(a, b);
    }
  }

  /**
   * The overlap penalty is never negative and is 0 when no two rectangles overlap; for
   * rectangles of positive size it is the improved search's overlap penalty.
   */
  lemma {:induction false} OverlapPenaltySpec(layout: seq<Rect>)
    ensures OverlapPenalty(layout) >= 0.0
    ensures PairwiseDisjoint(layout) ==> OverlapPenalty(layout) == 0.0
    ensures FitnessCalculator.AllPositive(layout) ==> OverlapPenalty(layout) == Improved.OverlapPenalty(layout)
  {
    var terms := Pairs(layout, ClippedTerms());
    forall v | v in terms
      ensures v > 0.0
    {
      PairsMember(layout, ClippedTerms(), v);
    }
    SumOfPositives(terms);
    if PairwiseDisjoint(layout) {
      forall a, b | 0 <= a < b < |layout|
        ensures ClippedTerms()(layout[a], layout[b]) == []
      {
        ClippedAreaSpec(layout[a], layout[b]);
      }
      PairsEmpty(layout, ClippedTerms());
    }
    if FitnessCalculator.AllPositive(layout) {
      ClippedTermsAgree(layout, layout);
      RowsCongruent(layout, |layout|, ClippedTerms(), FitnessCalculator.OverlapTerms());
    }
  }

  /** `_calculate_fixed_zone_penalty`: 50 per unit of clipped area, over every (rectangle, zone) pair. */
  function ZonePenalty(site: Site, layout: seq<Rect>): real
  {
    Improved.ZoneRate * Sum(Product(layout, site.zones, ClippedTerms()))
  }

  method CalculateFixedZonePenalty(site: Site, layout: seq<Rect>) returns (penalty: real)
    ensures penalty == ZonePenalty(site, layout)
  {
    penalty := 0.0;
    for i := 0 to |layout|
      invariant penalty == Improved.ZoneRate * Sum(ProductRows(layout, site.zones, i, ClippedTerms()))
    {
      SumProductRowsStep(layout, site.zones, i, ClippedTerms());
      Scale(Improved.ZoneRate, Sum(ProductRows(layout, site.zones, i, ClippedTerms())),
            Sum(Across(layout[i], site.zones, |site.zones|, ClippedTerms())));
      penalty := ZoneRowPenalty(layout[i], site.zones, penalty);
    }
  }

  /** The inner loop over the zones for one rectangle, adding to the running total. */
  method ZoneRowPenalty(rect: Rect, zones: seq<Rect>, start: real) returns (penalty: real)
    ensures penalty == start + Improved.ZoneRate * Sum(Across(rect, zones, |zones|, ClippedTerms()))
  {
    penalty := start;
    for j := 0 to |zones|
      invariant penalty == start + Improved.ZoneRate * Sum(Across(rect, zones, j, ClippedTerms()))
    {
      SumAcrossStep(rect, zones, j, ClippedTerms());
      var overlapArea := ClippedArea(rect, zones[j]);
      if overlapArea > 0.0 {
        SumSingle(overlapArea);
        penalty := penalty + overlapArea * Improved.ZoneRate;
      }
    }
  }

  /**
   * The zone penalty is never negative and is 0 for a layout clear of the zones; for
   * rectangles and zones of positive size it is the improved search's zone penalty.
   */
  lemma {:induction false} ZonePenaltySpec(site: Site, layout: seq<Rect>)
    ensures ZonePenalty(site, layout) >= 0.0
    ensures Improved.ClearOfZones(site, layout) ==> ZonePenalty(site, layout) == 0.0
    ensures FitnessCalculator.AllPositive(layout) && FitnessCalculator.AllPositive(site.zones) ==>
      ZonePenalty(site, layout) == Improved.ZoneRate * Improved.ZoneIntrusion(site, layout)
  {
    var terms := Product(layout, site.zones, ClippedTerms());
    forall v | v in terms
      ensures v > 0.0
    {
      var a, b := ProductWitness(layout, site.zones, ClippedTerms(), v);
    }
    SumOfPositives(terms);
    if Improved.ClearOfZones(site, layout) {
      forall a, b | 0 <= a < |layout| && 0 <= b < |site.zones|
        ensures ClippedTerms()(layout[a], site.zones[b]) == []
      {
        ClippedAreaSpec(layout[a], site.zones[b]);
      }
      ProductEmpty(layout, site.zones, ClippedTerms());
    }
    if FitnessCalculator.AllPositive(layout) && FitnessCalculator.AllPositive(site.zones) {
      ClippedTermsAgree(layout, site.zones);
      ProductRowsCongruent(layout, site.zones, |layout|, ClippedTerms(), FitnessCalculator.OverlapTerms());
    }
  }

  // ---------------------------------------------------------------- penalised fitness

  /** The three penalties of `_evaluate_solution_with_penalties`, added up. */
  function Penalty(site: Site, layout: seq<Rect>): real
  {
    BoundaryPenalty(site, layout) + OverlapPenalty(layout) + ZonePenalty(site, layout)
  }

  /**
   * The penalty is never negative and is 0 for a feasible layout; for rectangles and zones of
   * positive size it is the improved search's total penalty, so 0 exactly for a feasible layout.
   */
  lemma {:induction false} PenaltySpec(site: Site, layout: seq<Rect>)
    ensures Penalty(site, layout) >= 0.0
    ensures Improved.Feasible(site, layout) ==> Penalty(site, layout) == 0.0
    ensures FitnessCalculator.AllPositive(layout) && FitnessCalculator.AllPositive(site.zones) ==>
      Penalty(site, layout) == Improved.TotalPenalty(site, layout) &&
      (Penalty(site, layout) == 0.0 <==> Improved.Feasible(site, layout))
  {
    BoundaryPenaltySpec(site, layout);
    OverlapPenaltySpec(layout);
    ZonePenaltySpec(site, layout);
    Improved.TotalPenaltySpec(site, layout);
  }

  /** `_evaluate_solution_with_penalties`: the calculator's fitness less the penalty. */
  function SearchFitness(c: FitnessCalculator.Calculator, site: Site, layout: seq<Rect>): real
  {
    FitnessCalculator.Fitness(c, layout) - Penalty(site, layout)
  }

  method EvaluateSolutionWithPenalties(c: FitnessCalculator.Calculator, site: Site, layout: seq<Rect>) returns (fitness: real)
    ensures fitness == SearchFitness(c, site, layout)
  {
    var baseFitness := FitnessCalculator.CalculateFitness(c, layout);
    var penalty := 0.0;
    var boundaryPenalty := CalculateBoundaryPenalty(site, layout);
    penalty := penalty + boundaryPenalty;
    var overlapPenalty := CalculateOverlapPenalty(layout);
    penalty := penalty + overlapPenalty;
    var fixedZonePenalty := CalculateFixedZonePenalty(site, layout);
    penalty := penalty + fixedZonePenalty;
    fitness := baseFitness - penalty;
  }

  /**
   * The search never raises the calculator's fitness; for rectangles and zones of positive
   * size it scores as the improved search does, and when calculator and generator share the
   * site a non-empty layout scores at least 0 exactly when it is feasible.
   */
  lemma {:induction false} SearchFitnessSpec(c: FitnessCalculator.Calculator, site: Site, layout: seq<Rect>)
    ensures FitnessCalculator.AllPositive(layout) && FitnessCalculator.AllPositive(site.zones) ==>
      SearchFitness(c, site, layout) == Improved.SearchFitness(c, site, layout)
    ensures SearchFitness(c, site, layout) <= FitnessCalculator.Fitness(c, layout)
    ensures Improved.SameSite(c, site) && layout != [] && FitnessCalculator.AllPositive(layout) && FitnessCalculator.AllPositive(site.zones) ==>
      (SearchFitness(c, site, layout) >= 0.0 <==> Improved.Feasible(site, layout))
  {
    PenaltySpec(site, layout);
    Improved.SearchFitnessSpec(c, site, layout);
  }

  // ---------------------------------------------------------------- one solution

  /**
   * The solution the loop of `optimize` records for one finished layout: the penalised
   * fitness, the handler's verdict, the boundary flag, the layout code, and as penalty score
   * the penalised less the unpenalised fitness for an accepted layout, 0 otherwise. It never
   * scores above the calculator; its penalty score is the penalty negated for an accepted
   * layout. When handler and generator share the site, an accepted layout carries no
   * penalty, so the penalty score is always 0 and an accepted solution keeps the
   * calculator's fitness and crosses no boundary.
   */
  function SolutionOf(c: FitnessCalculator.Calculator, h: ConstraintHandler.Handler, site: Site, show: real -> string,
                      layout: seq<Rect>, generation: nat): (s: Solution)
    ensures s.layout == layout && s.generation == generation && s.fitness <= FitnessCalculator.Fitness(c, layout)
    ensures s.boundaryViolations <==> !Improved.InSite(site, layout)
    ensures s.constraintValid ==> s.penaltyScore == -Penalty(site, layout)
    ensures !s.constraintValid ==> s.penaltyScore == 0.0
    ensures Improved.HandlerSite(h, site) ==>
      s.penaltyScore == 0.0 && (s.constraintValid ==> !s.boundaryViolations && s.fitness == FitnessCalculator.Fitness(c, layout))
  {
    PenaltySpec(site, layout);
    assert Improved.HandlerSite(h, site) && ConstraintHandler.ValidLayout(h, layout) ==>
      Improved.InSite(site, layout) && Improved.ClearOfZones(site, layout);
    var fitness := SearchFitness(c, site, layout);
    var valid := ConstraintHandler.ValidLayout(h, layout);
    Solution(layout, fitness, LayoutGenerator.LayoutCode(layout, show), "exhaustive_search", generation, valid,
             !Improved.InSite(site, layout), if valid then fitness - FitnessCalculator.Fitness(c, layout) else 0.0, map[])
  }

  /** The solution for one main-process arrangement, with its sub processes placed on the sequence generator's grid. */
  function SolutionFor(c: FitnessCalculator.Calculator, h: ConstraintHandler.Handler, site: Site, show: real -> string,
                       mainLayout: seq<Rect>, subs: seq<LayoutGenerator.Process>, generation: nat): Solution
  {
    SolutionOf(c, h, site, show, LayoutGenerator.SubLayout(site, c.adjacencyWeights, LayoutGenerator.BaselineGrid, mainLayout, subs),
               generation)
  }

  /** `SolutionFor` as a function of the arrangement and its number. */
  function Evaluator(c: FitnessCalculator.Calculator, h: ConstraintHandler.Handler, site: Site, show: real -> string,
                     subs: seq<LayoutGenerator.Process>): (seq<Rect>, nat) -> Solution
  {
    (mainLayout: seq<Rect>, generation: nat) => SolutionFor(c, h, site, show, mainLayout, subs, generation)
  }

  // ---------------------------------------------------------------- counters and early stop

  /** Rejected by the handler. */
  function IsConstraintViolation(): Solution -> bool
  {
    (s: Solution) => !s.constraintValid
  }

  /** The counters after the given solutions: evaluated, accepted, rejected while crossing the boundary, and rejected. */
  predicate Counted(solutions: seq<Solution>, evaluated: nat, valid: nat, boundary: nat, violations: nat)
  {
    evaluated == |solutions| && valid == |Filter(solutions, Improved.IsConstraintValid())| &&
    boundary == |Filter(solutions, Improved.IsBoundaryOnly())| && violations == |Filter(solutions, IsConstraintViolation())|
  }

  /** Every solution is accepted or rejected, and those crossing the boundary are among the rejected. */
  lemma {:induction false} CountsAddUp(solutions: seq<Solution>)
    ensures |Filter(solutions, Improved.IsConstraintValid())| + |Filter(solutions, IsConstraintViolation())| == |solutions|
    ensures |Filter(solutions, Improved.IsBoundaryOnly())| <= |Filter(solutions, IsConstraintViolation())|
  {
    if solutions != [] {
      var init, last := solutions[..|solutions| - 1], solutions[|solutions| - 1];
      CountsAddUp(init);
      assert solutions == init + [last];
      FilterAppend(init, [last], Improved.IsConstraintValid());
      FilterAppend(init, [last], Improved.IsBoundaryOnly());
      FilterAppend(init, [last], IsConstraintViolation());
    }
  }

  /** One more solution adds one to the evaluated count and one to each count whose test it passes. */
  lemma {:induction false} CountedStep(solutions: seq<Solution>, s: Solution, evaluated: nat, valid: nat, boundary: nat, violations: nat)
    requires Counted(solutions, evaluated, valid, boundary, violations)
    ensures Counted(solutions + [s], evaluated + 1, if s.constraintValid then valid + 1 else valid,
                    if !s.constraintValid && s.boundaryViolations then boundary + 1 else boundary,
                    if s.constraintValid then violations else violations + 1)
  {
    FilterAppend(solutions, [s], Improved.IsConstraintValid());
    FilterAppend(solutions, [s], Improved.IsBoundaryOnly());
    FilterAppend(solutions, [s], IsConstraintViolation());
  }

  /** `max(1, total_combinations // 20)`: the checkpoint spacing, one twentieth of the arrangements. */
  function Interval(total: nat): nat
  {
    if total / 20 >= 1 then total / 20 else 1
  }

  /**
   * The loop of `optimize` stops after these solutions: their count is at a checkpoint, the
   * pool holds at least three times maxSolutions, at least maxSolutions arrangements were
   * accepted, and at least maxSolutions of the pooled solutions are constraint-valid.
   */
  predicate Stops(solutions: seq<Solution>, total: nat, maxSolutions: int)
  {
    var pool := PoolAfter([], solutions, maxSolutions * 3);
    |solutions| % Interval(total) == 0 && |pool| >= maxSolutions * 3 &&
    |Filter(solutions, Improved.IsConstraintValid())| >= maxSolutions &&
    |Filter(pool, Improved.IsConstraintValid())| >= maxSolutions
  }

  /** The loop went on after every non-empty proper prefix of the solutions. */
  predicate Continued(solutions: seq<Solution>, total: nat, maxSolutions: int)
    decreases |solutions|
  {
    |solutions| <= 1 ||
    (var init := solutions[..|solutions| - 1];
     Continued(init, total, maxSolutions) && !Stops(init, total, maxSolutions))
  }

  /** Going on after every proper prefix is not stopping after any of them. */
  lemma {:induction false} ContinuedSpec(solutions: seq<Solution>, total: nat, maxSolutions: int)
    ensures Continued(solutions, total, maxSolutions) <==>
      forall n :: 0 < n < |solutions| ==> !Stops(solutions[..n], total, maxSolutions)
  {
    if |solutions| > 1 {
      var init := solutions[..|solutions| - 1];
      ContinuedSpec(init, total, maxSolutions);
      assert forall n :: 0 < n < |init| ==> init[..n] == solutions[..n];
    }
  }

  /**
   * A stop needs a checkpoint, and with fewer than twenty arrangements every count is one;
   * with maxSolutions at most 0 every checkpoint stops the loop. A run that stops with
   * maxSolutions at least 0 returns exactly maxSolutions solutions, at least maxSolutions of
   * its pool being constraint-valid.
   */
  lemma {:induction false} StopsSpec(solutions: seq<Solution>, total: nat, maxSolutions: int)
    ensures Stops(solutions, total, maxSolutions) ==> |solutions| % Interval(total) == 0
    ensures total < 20 ==> Interval(total) == 1
    ensures maxSolutions <= 0 && |solutions| % Interval(total) == 0 ==> Stops(solutions, total, maxSolutions)
    ensures Stops(solutions, total, maxSolutions) && maxSolutions >= 0 ==>
      |SliceTo(PoolAfter([], solutions, maxSolutions * 3), maxSolutions)| == maxSolutions
  {
  }

  /**
   * What the loop of `optimize` evaluated: the solutions of the first arrangements in order,
   * going on after every proper prefix, and stopped early only when the rule fired.
   */
  predicate Searched(evaluate: (seq<Rect>, nat) -> Solution, combos: seq<seq<Rect>>, maxSolutions: int, solutions: seq<Solution>)
  {
    |solutions| <= |combos| &&
    solutions == Indexed(combos, |solutions|, evaluate) &&
    Continued(solutions, |combos|, maxSolutions) &&
    (|solutions| < |combos| ==> Stops(solutions, |combos|, maxSolutions))
  }

  /**
   * The loop of `optimize` after some arrangements: the solutions of the first arrangements in
   * order, no stop before the last of them, `stop` saying whether the rule fired after the
   * last, every solution pooled and twice in the history (both reset before the loop), and
   * the counters counting them.
   */
  predicate Tracked(evaluate: (seq<Rect>, nat) -> Solution, combos: seq<seq<Rect>>, maxSolutions: int,
                    solutions: seq<Solution>, stop: bool, historyNow: seq<real>, poolNow: seq<Solution>,
                    evaluated: nat, valid: nat, boundary: nat, violations: nat)
  {
    |solutions| <= |combos| &&
    solutions == Indexed(combos, |solutions|, evaluate) &&
    Continued(solutions, |combos|, maxSolutions) &&
    stop == (solutions != [] && Stops(solutions, |combos|, maxSolutions)) &&
    historyNow == Improved.DoubledFitness(solutions) &&
    poolNow == PoolAfter([], solutions, maxSolutions * 3) &&
    Counted(solutions, evaluated, valid, boundary, violations)
  }

  /**
   * One more solution keeps the loop tracked: it is the next arrangement's, its fitness enters
   * the history twice, the pool takes it, and the counters count it.
   */
  lemma {:induction false} TrackedStep(evaluate: (seq<Rect>, nat) -> Solution, combos: seq<seq<Rect>>, maxSolutions: int,
                                       solutions: seq<Solution>, solution: Solution, history: seq<real>, pool: seq<Solution>,
                                       evaluated: nat, valid: nat, boundary: nat, violations: nat)
    requires Tracked(evaluate, combos, maxSolutions, solutions, false, history, pool, evaluated, valid, boundary, violations)
    requires |solutions| < |combos| && solution == evaluate(combos[|solutions|], |solutions| + 1)
    ensures Tracked(evaluate, combos, maxSolutions, solutions + [solution],
                    Stops(solutions + [solution], |combos|, maxSolutions),
                    history + [solution.fitness, solution.fitness], Kept(pool, solution, maxSolutions * 3),
                    evaluated + 1, if solution.constraintValid then valid + 1 else valid,
                    if !solution.constraintValid && solution.boundaryViolations then boundary + 1 else boundary,
                    if solution.constraintValid then violations else violations + 1)
  {
    Improved.SnocSteps(solutions, solution, [], maxSolutions * 3);
    CountedStep(solutions, solution, evaluated, valid, boundary, violations);
    assert (solutions + [solution])[..|solutions|] == solutions;
  }

  // ---------------------------------------------------------------- constraint statistics

  /** The `constraint_statistics` entry of `get_optimization_statistics`. */
  datatype ConstraintStatistics = ConstraintStatistics(totalEvaluated: nat, validSolutions: nat, boundaryViolations: nat,
                                                       constraintViolations: nat, validRate: real, boundaryViolationRate: real)

  /** The entry, present only once something was evaluated. */
  function Statistics(evaluated: nat, valid: nat, boundary: nat, violations: nat): Option<ConstraintStatistics>
  {
    if evaluated > 0 then
      Some(ConstraintStatistics(evaluated, valid, boundary, violations, valid as real / evaluated as real, boundary as real / evaluated as real))
    else None
  }

  /**
   * With counters that add up, the entry is missing exactly before any evaluation, and its
   * rates are shares: between 0 and 1, the boundary rate at most the share rejected.
   */
  lemma {:induction false} StatisticsSpec(evaluated: nat, valid: nat, boundary: nat, violations: nat)
    requires valid + violations == evaluated && boundary <= violations
    ensures Statistics(evaluated, valid, boundary, violations).None? <==> evaluated == 0
    ensures var st := Statistics(evaluated, valid, boundary, violations);
      st.Some? ==> 0.0 <= st.value.validRate <= 1.0 && 0.0 <= st.value.boundaryViolationRate <= 1.0 - st.value.validRate
  {
    if evaluated > 0 {
      var n := evaluated as real;
      DivAdd(valid as real, violations as real, n);
      DivMono(boundary as real, violations as real, n);
      DivNonNeg(valid as real, n);
      DivNonNeg(boundary as real, n);
      DivNonNeg(violations as real, n);
    }
  }

  // Shares of a positive whole.

  lemma {:induction false} DivAdd(a: real, b: real, n: real)
    requires n > 0.0
    ensures a / n + b / n == (a + b) / n && n / n == 1.0
  {
  }

  lemma {:induction false} DivMono(a: real, b: real, n: real)
    requires n > 0.0 && a <= b
    ensures a / n <= b / n
  {
  }

  lemma {:induction false} DivNonNeg(a: real, n: real)
    requires n > 0.0 && a >= 0.0
    ensures a / n >= 0.0
  {
  }

  // ---------------------------------------------------------------- the optimizer

  /**
   * `ExhaustiveSearchOptimizer`: the engine state it inherits, the site of its layout
   * generator, the number formatting of its layout codes, and its four counters.
   */
  class ExhaustiveSearch {
    const engine: Engine
    const site: Site
    const show: real -> string
    var evaluatedCombinations: nat
    var validCombinations: nat
    var boundaryViolations: nat
    var constraintViolations: nat

    /** The engine's pool is in order, and the counters add up. */
    ghost predicate Valid()
      reads this, engine
    {
      engine.Valid() && validCombinations + constraintViolations == evaluatedCombinations &&
      boundaryViolations <= constraintViolations
    }

    constructor (engine: Engine, site: Site, show: real -> string)
      requires engine.Valid()
      ensures this.engine == engine && this.site == site && this.show == show
      ensures evaluatedCombinations == 0 && validCombinations == 0 && boundaryViolations == 0 && constraintViolations == 0
      ensures Valid()
    {
      this.engine := engine;
      this.site := site;
      this.show := show;
      evaluatedCombinations := 0;
      validCombinations := 0;
      boundaryViolations := 0;
      constraintViolations := 0;
    }

    /** One pass of the loop body of `optimize`, up to the solution it records. */
    method EvaluateCombination(mainLayout: seq<Rect>, subs: seq<LayoutGenerator.Process>, generation: nat) returns (solution: Solution)
      ensures solution == SolutionFor(engine.calculator, engine.handler, site, show, mainLayout, subs, generation)
    {
      var layout := LayoutGenerator.PlaceSubProcessesOptimally(site, mainLayout, subs, engine.calculator.adjacencyWeights,
                                                               LayoutGenerator.BaselineGrid);
      var fitness := EvaluateSolutionWithPenalties(engine.calculator, site, layout);
      var isConstraintValid := ConstraintHandler.IsValid(engine.handler, layout);
      var hasBoundaryViolations := Improved.HasBoundaryViolations(site, layout);
      var code := LayoutGenerator.GenerateLayoutCode(layout, show);
      var penaltyScore := 0.0;
      if isConstraintValid {
        var baseFitness := FitnessCalculator.CalculateFitness(engine.calculator, layout);
        penaltyScore := fitness - baseFitness;
      }
      solution := Solution(layout, fitness, code, "exhaustive_search", generation,
                           isConstraintValid, hasBoundaryViolations, penaltyScore, map[]);
    }

    /** `Tracked` for this optimizer's evaluation, its engine's history and pool, and its counters. */
    ghost predicate Progress(combos: seq<seq<Rect>>, subs: seq<LayoutGenerator.Process>, maxSolutions: int,
                             solutions: seq<Solution>, stop: bool)
      reads this, engine
    {
      Tracked(Evaluator(engine.calculator, engine.handler, site, show, subs), combos, maxSolutions, solutions, stop,
              engine.fitnessHistory, engine.bestSolutions,
              evaluatedCombinations, validCombinations, boundaryViolations, constraintViolations) &&
      engine.Valid()
    }

    /** The counter updates of one pass: one more evaluated, and one more accepted, or rejected (and crossing the boundary). */
    method Count(solution: Solution)
      modifies this
      ensures evaluatedCombinations == old(evaluatedCombinations) + 1
      ensures validCombinations == if solution.constraintValid then old(validCombinations) + 1 else old(validCombinations)
      ensures constraintViolations == if solution.constraintValid then old(constraintViolations) else old(constraintViolations) + 1
      ensures boundaryViolations ==
        if !solution.constraintValid && solution.boundaryViolations then old(boundaryViolations) + 1 else old(boundaryViolations)
    {
      evaluatedCombinations := evaluatedCombinations + 1;
      if solution.constraintValid {
        validCombinations := validCombinations + 1;
      } else {
        constraintViolations := constraintViolations + 1;
        if solution.boundaryViolations {
          boundaryViolations := boundaryViolations + 1;
        }
      }
    }

    /**
     * The early-stop test after n arrangements: at a checkpoint, with a pool of at least
     * three times maxSolutions and at least maxSolutions accepted, the valid pooled solutions
     * are counted against maxSolutions.
     */
    method ShouldStop(n: nat, total: nat, maxSolutions: int) returns (stop: bool)
      ensures stop == (n % Interval(total) == 0 && |engine.bestSolutions| >= maxSolutions * 3 &&
                       validCombinations >= maxSolutions &&
                       |Filter(engine.bestSolutions, Improved.IsConstraintValid())| >= maxSolutions)
    {
      stop := false;
      if n % Interval(total) == 0 {
        if |engine.bestSolutions| >= maxSolutions * 3 && validCombinations >= maxSolutions {
          var highQualitySolutions := FilterLoop(engine.bestSolutions, Improved.IsConstraintValid());
          stop := |highQualitySolutions| >= maxSolutions;
        }
      }
    }

    /**
     * The rest of one pass once the solution of the next arrangement is known: count it,
     * record it in the pool and the history, and test the early stop.
     */
    method Advance(ghost evaluate: (seq<Rect>, nat) -> Solution, combos: seq<seq<Rect>>, maxSolutions: int,
                   solutions: seq<Solution>, solution: Solution)
      returns (solutions': seq<Solution>, stop: bool)
      requires Tracked(evaluate, combos, maxSolutions, solutions, false, engine.fitnessHistory, engine.bestSolutions,
                       evaluatedCombinations, validCombinations, boundaryViolations, constraintViolations)
      requires engine.Valid()
      requires |solutions| < |combos| && solution == evaluate(combos[|solutions|], |solutions| + 1)
      modifies this, engine
      ensures solutions' == solutions + [solution]
      ensures Tracked(evaluate, combos, maxSolutions, solutions', stop, engine.fitnessHistory, engine.bestSolutions,
                      evaluatedCombinations, validCombinations, boundaryViolations, constraintViolations)
      ensures engine.Valid()
      ensures engine.optimizationHistory == old(engine.optimizationHistory) && engine.startTime == old(engine.startTime)
    {
      TrackedStep(evaluate, combos, maxSolutions, solutions, solution, engine.fitnessHistory, engine.bestSolutions,
                  evaluatedCombinations, validCombinations, boundaryViolations, constraintViolations);
      Count(solution);
      solutions' := solutions + [solution];
      RecordSolution(engine, solution, maxSolutions * 3);
      stop := ShouldStop(|solutions'|, |combos|, maxSolutions);
    }

    /** One pass of the loop of `optimize` over the next arrangement. */
    method Step(combos: seq<seq<Rect>>, subs: seq<LayoutGenerator.Process>, maxSolutions: int, solutions: seq<Solution>)
      returns (solutions': seq<Solution>, stop: bool)
      requires |solutions| < |combos|
      requires Progress(combos, subs, maxSolutions, solutions, false)
      modifies this, engine
      ensures |solutions'| == |solutions| + 1
      ensures Progress(combos, subs, maxSolutions, solutions', stop)
      ensures engine.optimizationHistory == old(engine.optimizationHistory) && engine.startTime == old(engine.startTime)
    {
      var i := |solutions|;
      var solution := EvaluateCombination(combos[i], subs, i + 1);
      ghost var evaluate := Evaluator(engine.calculator, engine.handler, site, show, subs);
      assert solution == evaluate(combos[i], i + 1);
      solutions', stop := Advance(evaluate, combos, maxSolutions, solutions, solution);
    }

    /**
     * The loop of `optimize`, from a reset pool, history and counters: the k-th solution comes
     * from the k-th arrangement and is numbered k + 1; the loop runs to the end unless the
     * early stop fires, and it stops at the first point where it does. Every solution goes
     * through the pool (kept at three times maxSolutions), its fitness is recorded twice, and
     * the counters count the solutions.
     */
    method EvaluateCombinations(combos: seq<seq<Rect>>, subs: seq<LayoutGenerator.Process>, maxSolutions: int)
      returns (solutions: seq<Solution>)
      requires engine.bestSolutions == [] && engine.fitnessHistory == []
      requires evaluatedCombinations == 0 && validCombinations == 0 && boundaryViolations == 0 && constraintViolations == 0
      modifies this, engine
      ensures Searched(Evaluator(engine.calculator, engine.handler, site, show, subs), combos, maxSolutions, solutions)
      ensures engine.fitnessHistory == Improved.DoubledFitness(solutions)
      ensures engine.bestSolutions == PoolAfter([], solutions, maxSolutions * 3)
      ensures Counted(solutions, evaluatedCombinations, validCombinations, boundaryViolations, constraintViolations)
      ensures engine.optimizationHistory == old(engine.optimizationHistory) && engine.startTime == old(engine.startTime)
      ensures engine.Valid()
    {
      solutions := [];
      var stop := false;
      while |solutions| < |combos| && !stop
        invariant Progress(combos, subs, maxSolutions, solutions, stop)
        invariant engine.optimizationHistory == old(engine.optimizationHistory) && engine.startTime == old(engine.startTime)
        decreases |combos| - |solutions|, !stop
      {
        solutions, stop := Step(combos, subs, maxSolutions, solutions);
      }
    }

    /**
     * `optimize`: reset the pool, the history and the counters; generate the main-process
     * arrangements, none for no main processes; cut them to maxCombinations; evaluate them in
     * order until the early stop fires; and return the best maxSolutions of the pool by
     * fitness. The ghost outputs name the arrangements generated and the solutions evaluated.
     */
    method Optimize(mains: seq<LayoutGenerator.Process>, subs: seq<LayoutGenerator.Process>, maxSolutions: int,
                    maxCombinations: Option<int>)
      returns (final: seq<Solution>, ghost generated: seq<seq<Rect>>, ghost evaluated: seq<Solution>)
      modifies this, engine
      ensures mains == [] ==> generated == [] && final == []
      ensures mains != [] ==> generated == Product(LayoutGenerator.RotationVectors(|mains|), LayoutGenerator.DirectionVectors(|mains| - 1),
                                                   LayoutGenerator.SequentialAttempt(site, mains))
      ensures Searched(Evaluator(engine.calculator, engine.handler, site, show, subs), Improved.Truncated(generated, maxCombinations),
                       maxSolutions, evaluated)
      ensures Counted(evaluated, evaluatedCombinations, validCombinations, boundaryViolations, constraintViolations)
      ensures engine.bestSolutions == PoolAfter([], evaluated, maxSolutions * 3)
      ensures engine.fitnessHistory == Improved.DoubledFitness(evaluated)
      ensures final == SliceTo(engine.bestSolutions, maxSolutions)
      ensures SortedDesc(final, FitnessOf()) && forall s :: s in final ==> s in evaluated
      ensures maxSolutions >= 0 ==> |final| <= maxSolutions
      ensures engine.optimizationHistory == old(engine.optimizationHistory) && engine.startTime == old(engine.startTime)
      ensures Valid()
    {
      engine.bestSolutions := [];
      engine.fitnessHistory := [];
      evaluatedCombinations := 0;
      validCombinations := 0;
      boundaryViolations := 0;
      constraintViolations := 0;
      var mainLayoutCombinations, _ := LayoutGenerator.GenerateMainLayoutCombinations(site, mains);
      generated := mainLayoutCombinations;
      var combos := Improved.Truncated(mainLayoutCombinations, maxCombinations);
      if mainLayoutCombinations == [] {
        evaluated, final := [], [];
        NothingSearched(Evaluator(engine.calculator, engine.handler, site, show, subs), combos, maxSolutions);
        return;
      }
      var solutions := EvaluateCombinations(combos, subs, maxSolutions);
      evaluated := solutions;
      final := SliceTo(SortDesc(engine.bestSolutions, FitnessOf()), maxSolutions);
      FinalFacts(evaluated, maxSolutions);
      CountsAddUp(evaluated);
    }

    /**
     * The `constraint_statistics` entry of `get_optimization_statistics`: missing before any
     * evaluation, and otherwise the counters with the valid and boundary rates. `Valid()` makes
     * the counters add up, so `StatisticsSpec` shows the rates are shares.
     */
    method GetOptimizationStatistics() returns (stats: Option<ConstraintStatistics>)
      requires Valid()
      ensures stats == Statistics(evaluatedCombinations, validCombinations, boundaryViolations, constraintViolations)
    {
      if evaluatedCombinations > 0 {
        var total := evaluatedCombinations as real;
        stats := Some(ConstraintStatistics(evaluatedCombinations, validCombinations, boundaryViolations, constraintViolations,
                                           validCombinations as real / total, boundaryViolations as real / total));
      } else {
        stats := None;
      }
    }
  }

  /** The final list is the pool's head: in order, drawn from the evaluated solutions, at most maxSolutions long. */
  /** With no arrangements nothing is evaluated: the pool, the history and the counters stay empty. */
  lemma NothingSearched(evaluate: (seq<Rect>, nat) -> Solution, combos: seq<seq<Rect>>, maxSolutions: int)
    requires combos == []
    ensures Searched(evaluate, combos, maxSolutions, []) && Counted([], 0, 0, 0, 0)
    ensures PoolAfter([], [], maxSolutions * 3) == [] && Improved.DoubledFitness([]) == [] && SliceTo<Solution>([], maxSolutions) == []
  {
  }

  lemma {:induction false} FinalFacts(evaluated: seq<Solution>, maxSolutions: int)
    ensures var pool := PoolAfter([], evaluated, maxSolutions * 3);
      var final := SliceTo(SortDesc(pool, FitnessOf()), maxSolutions);
      final == SliceTo(pool, maxSolutions) && SortedDesc(final, FitnessOf()) &&
      (forall s :: s in final ==> s in evaluated) && (maxSolutions >= 0 ==> |final| <= maxSolutions)
  {
    var pool := PoolAfter([], evaluated, maxSolutions * 3);
    PoolAfterSpec([], evaluated, maxSolutions * 3);
    SortDescOfSorted(pool, FitnessOf());
    var final := SliceTo(pool, maxSolutions);
    SortedPrefix(pool, |final|, FitnessOf());
  }
}
