/**
 * The state every search engine shares: a pool of the best solutions kept in fitness order
 * and cut to a maximum size, the history of every fitness handed to the pool, and, for the
 * multi-objective engine, a Pareto front of mutually non-dominated solutions.
 */
module BaseEngine {
  import opened Wrappers
  import opened Collect
  import opened Sorting
  import opened Geometry
  import FitnessCalculator
  import ConstraintHandler

  /** Objective name to score, as kept in a solution's `objective_scores`. */
  type Scores = map<string, real>

  /**
   * A solution record as the searches build it: the layout, its fitness, its layout code, the
   * search that built it, the iteration that produced it, the constraint verdicts and the
   * penalty the search charged.
   */
  datatype Solution = Solution(layout: seq<Rect>, fitness: real, code: string, algorithm: string, generation: nat,
                               constraintValid: bool, boundaryViolations: bool, penaltyScore: real,
                               objectiveScores: Scores)

  /** The sort key of the pool: the solution's fitness. */
  function FitnessOf(): Solution -> real
  {
    (s: Solution) => s.fitness
  }

  // ---------------------------------------------------------------- evaluate_solution

  /** The calculator and the constraint handler describe the same site and the same zones. */
  predicate SameSite(c: FitnessCalculator.Calculator, h: ConstraintHandler.Handler)
  {
    c.width == h.width && c.height == h.height && c.zones == h.zones
  }

  /** `evaluate_solution`: None stands for the `-inf` given to a layout `is_valid` rejects. */
  function Evaluation(c: FitnessCalculator.Calculator, h: ConstraintHandler.Handler, layout: seq<Rect>): Option<real>
  {
    if ConstraintHandler.ValidLayout(h, layout) then Some(FitnessCalculator.Fitness(c, layout)) else None
  }

  /**
   * A layout the handler accepts never scores below 0, and a layout it rejects gets no finite
   * score: the evaluation is negative only for a violation.
   */
  lemma {:induction false} EvaluationSign(c: FitnessCalculator.Calculator, h: ConstraintHandler.Handler, layout: seq<Rect>)
    requires SameSite(c, h) && FitnessCalculator.AllPositive(layout) && FitnessCalculator.AllPositive(h.zones)
    ensures Evaluation(c, h, layout).None? <==> !ConstraintHandler.ValidLayout(h, layout)
    ensures Evaluation(c, h, layout).Some? ==> Evaluation(c, h, layout).value >= 0.0
  {
    if ConstraintHandler.ValidLayout(h, layout) {
      FitnessCalculator.FitnessFeasible(c, layout);
      assert FitnessCalculator.WithinSite(c, layout) by {
        assert ConstraintHandler.WithinSite(h, layout);
      }
      assert FitnessCalculator.ClearOfZones(c, layout) by {
        assert ConstraintHandler.ClearOfZones(h, layout);
      }
    }
  }

  // ---------------------------------------------------------------- update_best_solutions

  /**
   * The pool after `update_best_solutions(s, maxKeep)`: the old pool with s appended, stably
   * sorted by descending fitness, and cut to `[:maxKeep]` when longer than maxKeep.
   */
  function Kept(pool: seq<Solution>, s: Solution, maxKeep: int): seq<Solution>
  {
    var sorted := SortDesc(pool + [s], FitnessOf());
    if |sorted| > maxKeep then SliceTo(sorted, maxKeep) else sorted
  }

  /** The kept pool holds maxKeep solutions when they do not all fit, and all of them when they do. */
  lemma {:induction false} KeptSize(pool: seq<Solution>, s: Solution, maxKeep: int)
    ensures maxKeep >= 0 ==> |Kept(pool, s, maxKeep)| == maxKeep || |Kept(pool, s, maxKeep)| == |pool| + 1
    ensures maxKeep >= 0 && |pool| + 1 > maxKeep ==> |Kept(pool, s, maxKeep)| == maxKeep
    ensures |pool| + 1 <= maxKeep ==> multiset(Kept(pool, s, maxKeep)) == multiset(pool + [s])
  {
    SortDescSorted(pool + [s], FitnessOf());
  }

  /**
   * The kept pool is sorted by fitness, takes its solutions from the old pool and s, and no
   * solution it drops has a higher fitness than one it keeps.
   */
  lemma {:induction false} KeptSpec(pool: seq<Solution>, s: Solution, maxKeep: int)
    ensures multiset(Kept(pool, s, maxKeep)) <= multiset(pool + [s])
    ensures SortedDesc(Kept(pool, s, maxKeep), FitnessOf())
    ensures forall x :: x in Kept(pool, s, maxKeep) ==> x in pool || x == s
    ensures var r := Kept(pool, s, maxKeep);
      forall x, y :: x in r && y in multiset(pool + [s]) - multiset(r) ==> x.fitness >= y.fitness
  {
    var all := pool + [s];
    var sorted := SortDesc(all, FitnessOf());
    SortDescSorted(all, FitnessOf());
    var r := Kept(pool, s, maxKeep);
    var n := |r|;
    assert r == sorted[..n];
    SortedPrefix(sorted, n, FitnessOf());
    SortedPrefixTop(sorted, n, FitnessOf());
    assert multiset(r) <= multiset(all);
    forall x | x in r
      ensures x in all
    {
      assert x in multiset(r);
    }
  }


  /**
   * When the old pool is sorted, as every update leaves it, the new solution goes in behind
   * every solution whose fitness is at least its own, ties included, and in front of every
   * solution with a lower fitness; the old solutions keep their order.
   */
  lemma {:induction false} KeptRanking(pool: seq<Solution>, s: Solution, maxKeep: int)
    requires SortedDesc(pool, FitnessOf())
    ensures var p := InsertPoint(pool, s, FitnessOf());
      var ranked := pool[..p] + [s] + pool[p..];
      Kept(pool, s, maxKeep) == (if |ranked| > maxKeep then SliceTo(ranked, maxKeep) else ranked) &&
      (forall i :: 0 <= i < p ==> pool[i].fitness >= s.fitness) &&
      (forall i :: p <= i < |pool| ==> pool[i].fitness < s.fitness)
  {
    SortDescAppend(pool, s, FitnessOf());
    InsertDescSplit(pool, s, FitnessOf());
  }

  /** The pool after `update_best_solutions` has been called with each of sols in turn. */
  function PoolAfter(pool: seq<Solution>, sols: seq<Solution>, maxKeep: int): seq<Solution>
  {
    if sols == [] then pool else Kept(PoolAfter(pool, sols[..|sols| - 1], maxKeep), sols[|sols| - 1], maxKeep)
  }

  /**
   * Repeated updates keep a sorted pool sorted and within maxKeep, and every pooled solution
   * was in the pool or among those handed in.
   */
  lemma {:induction false} PoolAfterSpec(pool: seq<Solution>, sols: seq<Solution>, maxKeep: int)
    requires SortedDesc(pool, FitnessOf())
    ensures SortedDesc(PoolAfter(pool, sols, maxKeep), FitnessOf())
    ensures 0 <= maxKeep && |pool| <= maxKeep ==> |PoolAfter(pool, sols, maxKeep)| <= maxKeep
    ensures forall x :: x in PoolAfter(pool, sols, maxKeep) ==> x in pool || x in sols
  {
    if sols != [] {
      var init, last := sols[..|sols| - 1], sols[|sols| - 1];
      PoolAfterSpec(pool, init, maxKeep);
      KeptSpec(PoolAfter(pool, init, maxKeep), last, maxKeep);
      KeptSize(PoolAfter(pool, init, maxKeep), last, maxKeep);
      forall x | x in PoolAfter(pool, sols, maxKeep)
        ensures x in pool || x in sols
      {
        if x != last {
          assert x in PoolAfter(pool, init, maxKeep);
          if x in init {
            assert x in sols;
          }
        }
      }
    }
  }

  // ---------------------------------------------------------------- get_solution_diversity

  /** The layout codes of the pool, in pool order. */
  function Codes(sols: seq<Solution>): (cs: seq<string>)
    ensures |cs| == |sols|
    ensures forall k :: 0 <= k < |sols| ==> cs[k] == sols[k].code
  {
    if sols == [] then [] else Codes(sols[..|sols| - 1]) + [sols[|sols| - 1].code]
  }

  /** `set(codes)`. */
  function CodeSet(sols: seq<Solution>): set<string>
  {
    if sols == [] then {} else CodeSet(sols[..|sols| - 1]) + {sols[|sols| - 1].code}
  }

  /** The set of codes has one element per distinct code: at least one, at most one per solution. */
  lemma {:induction false} CodeSetSize(sols: seq<Solution>)
    ensures forall c :: c in CodeSet(sols) <==> c in Codes(sols)
    ensures sols != [] ==> 1 <= |CodeSet(sols)|
    ensures |CodeSet(sols)| <= |sols|
    ensures |CodeSet(sols)| == |sols| <==> Distinct(Codes(sols))
  {
    if sols != [] {
      var init, last := sols[..|sols| - 1], sols[|sols| - 1];
      CodeSetSize(init);
      assert Codes(sols) == Codes(init) + [last.code];
      DistinctSnoc(Codes(init), last.code);
      if last.code in CodeSet(init) {
        assert CodeSet(sols) == CodeSet(init);
      } else {
        assert |CodeSet(sols)| == |CodeSet(init)| + 1;
      }
    }
  }

  /**
   * `get_solution_diversity`: 0 for fewer than two solutions; otherwise the share of distinct
   * codes, which lies in (0, 1].
   */
  function Diversity(sols: seq<Solution>): (d: real)
    ensures |sols| < 2 ==> d == 0.0
    ensures |sols| >= 2 ==> 0.0 < d <= 1.0
  {
    if |sols| < 2 then 0.0
    else
      CodeSetSize(sols);
      Share(|CodeSet(sols)|, |sols|);
      |CodeSet(sols)| as real / |sols| as real
  }

  /** From two solutions on, the diversity is 1 exactly when no layout code repeats. */
  lemma {:induction false} DiversityDistinct(sols: seq<Solution>)
    requires |sols| >= 2
    ensures Diversity(sols) == 1.0 <==> Distinct(Codes(sols))
  {
    CodeSetSize(sols);
    Share(|CodeSet(sols)|, |sols|);
  }

  /** A share m / n of a positive whole lies in (0, 1] and is 1 only for the whole. */
  lemma {:induction false} Share(m: nat, n: nat)
    requires 1 <= m <= n
    ensures 0.0 < m as real / n as real <= 1.0
    ensures m as real / n as real == 1.0 <==> m == n
  {
    var q := m as real / n as real;
    assert q * n as real == m as real;
  }

  // ---------------------------------------------------------------- the engine

  /** `OptimizationEngine`: the pool, the fitness history and the step history of one search. */
  class Engine {
    const calculator: FitnessCalculator.Calculator
    const handler: ConstraintHandler.Handler
    var bestSolutions: seq<Solution>
    var fitnessHistory: seq<real>
    var optimizationHistory: seq<Scores>
    var startTime: Option<real>

    /** The pool is in fitness order, as every update leaves it. */
    predicate Valid()
      reads this
    {
      SortedDesc(bestSolutions, FitnessOf())
    }

    /** A new engine has an empty pool and empty histories, and has not started. */
    constructor (calculator: FitnessCalculator.Calculator, handler: ConstraintHandler.Handler)
      ensures this.calculator == calculator && this.handler == handler
      ensures bestSolutions == [] && fitnessHistory == [] && optimizationHistory == [] && startTime == None
      ensures Valid()
    {
      this.calculator := calculator;
      this.handler := handler;
      bestSolutions := [];
      fitnessHistory := [];
      optimizationHistory := [];
      startTime := None;
    }

    /** `evaluate_solution`: the handler's verdict first, then the calculator's fitness. */
    method EvaluateSolution(layout: seq<Rect>) returns (score: Option<real>)
      ensures score == Evaluation(calculator, handler, layout)
    {
      var ok := ConstraintHandler.IsValid(handler, layout);
      if !ok {
        return None;
      }
      var fitness := FitnessCalculator.CalculateFitness(calculator, layout);
      score := Some(fitness);
    }

    /**
     * `update_best_solutions`: append, sort by fitness, cut to maxKeep, and record the fitness.
     * The pool is left in fitness order whatever it held before.
     */
    method UpdateBestSolutions(solution: Solution, maxKeep: int)
      modifies this
      ensures bestSolutions == Kept(old(bestSolutions), solution, maxKeep)
      ensures fitnessHistory == old(fitnessHistory) + [solution.fitness]
      ensures optimizationHistory == old(optimizationHistory) && startTime == old(startTime)
      ensures Valid()
    {
      var pool := bestSolutions + [solution];
      pool := SortDesc(pool, FitnessOf());
      if |pool| > maxKeep {
        pool := SliceTo(pool, maxKeep);
      }
      bestSolutions := pool;
      KeptSpec(old(bestSolutions), solution, maxKeep);
      fitnessHistory := fitnessHistory + [solution.fitness];
    }

    /** `get_best_solution`: the first pool entry, which has the highest fitness; None for an empty pool. */
    function GetBestSolution(): (r: Option<Solution>)
      reads this
      ensures r.Some? <==> bestSolutions != []
      ensures r.Some? ==> r.value == bestSolutions[0]
      ensures r.Some? && Valid() ==> forall k :: 0 <= k < |bestSolutions| ==> r.value.fitness >= bestSolutions[k].fitness
    {
      if bestSolutions != [] then Some(bestSolutions[0]) else None
    }

    /** `get_solution_diversity` over the current pool. */
    function GetSolutionDiversity(): real
      reads this
    {
      Diversity(bestSolutions)
    }

    /** `start_optimization`: record the start time and empty the pool and both histories. */
    method StartOptimization(now: real)
      modifies this
      ensures startTime == Some(now)
      ensures bestSolutions == [] && fitnessHistory == [] && optimizationHistory == []
      ensures Valid()
    {
      startTime := Some(now);
      bestSolutions := [];
      fitnessHistory := [];
      optimizationHistory := [];
    }
  }

  // ---------------------------------------------------------------- Pareto dominance

  /**
   * What both exhaustive searches do with each new solution: `update_best_solutions`, then
   * their own `fitness_history.append`, so the history gains the fitness twice.
   */
  method RecordSolution(engine: Engine, solution: Solution, maxKeep: int)
    modifies engine
    ensures engine.bestSolutions == Kept(old(engine.bestSolutions), solution, maxKeep)
    ensures engine.fitnessHistory == old(engine.fitnessHistory) + [solution.fitness, solution.fitness]
    ensures engine.optimizationHistory == old(engine.optimizationHistory) && engine.startTime == old(engine.startTime)
    ensures engine.Valid()
  {
    engine.UpdateBestSolutions(solution, maxKeep);
    engine.fitnessHistory := engine.fitnessHistory + [solution.fitness];
  }

  /** Every objective has a score in m; a lookup of a missing one raises `KeyError`. */
  predicate HasAll(objectives: seq<string>, m: Scores)
  {
    forall k :: 0 <= k < |objectives| ==> objectives[k] in m
  }

  /** a beats b on some objective. */
  predicate BetterSomewhere(objectives: seq<string>, a: Scores, b: Scores)
    requires HasAll(objectives, a) && HasAll(objectives, b)
  {
    exists k :: 0 <= k < |objectives| && a[objectives[k]] > b[objectives[k]]
  }

  /** a is at least as good as b on every objective. */
  predicate NoWorse(objectives: seq<string>, a: Scores, b: Scores)
    requires HasAll(objectives, a) && HasAll(objectives, b)
  {
    forall k :: 0 <= k < |objectives| ==> a[objectives[k]] >= b[objectives[k]]
  }

  /** a Pareto-dominates b: better on some objective and worse on none. */
  predicate Dominates(objectives: seq<string>, a: Scores, b: Scores)
  {
    HasAll(objectives, a) && HasAll(objectives, b) && BetterSomewhere(objectives, a, b) && NoWorse(objectives, a, b)
  }

  /** Dominance is irreflexive, asymmetric and transitive: a strict partial order. */
  lemma {:induction false} DominanceOrder(objectives: seq<string>, a: Scores, b: Scores, c: Scores)
    ensures !Dominates(objectives, a, a)
    ensures Dominates(objectives, a, b) ==> !Dominates(objectives, b, a)
    ensures Dominates(objectives, a, b) && Dominates(objectives, b, c) ==> Dominates(objectives, a, c)
  {
    if Dominates(objectives, a, b) && Dominates(objectives, b, c) {
      var k :| 0 <= k < |objectives| && a[objectives[k]] > b[objectives[k]];
      assert a[objectives[k]] > c[objectives[k]];
    }
  }

  /** With no objectives nothing dominates anything. */
  lemma {:induction false} NoObjectives(a: Scores, b: Scores)
    ensures !Dominates([], a, b)
  {
  }

  /**
   * `is_pareto_dominant`: one pass over the objectives setting a "better" and a "worse" flag.
   * A score that is neither higher nor lower leaves both flags alone.
   */
  method IsParetoDominant(objectives: seq<string>, scores1: Scores, scores2: Scores) returns (d: bool)
    requires HasAll(objectives, scores1) && HasAll(objectives, scores2)
    ensures d <==> Dominates(objectives, scores1, scores2)
  {
    var better := false;
    var worse := false;
    var i := 0;
    while i < |objectives|
      invariant 0 <= i <= |objectives|
      invariant better <==> exists k :: 0 <= k < i && scores1[objectives[k]] > scores2[objectives[k]]
      invariant worse <==> exists k :: 0 <= k < i && scores1[objectives[k]] < scores2[objectives[k]]
    {
      var o := objectives[i];
      if scores1[o] > scores2[o] {
        better := true;
      } else if scores1[o] < scores2[o] {
        worse := true;
      }
      i := i + 1;
    }
    d := better && !worse;
  }

  // ---------------------------------------------------------------- update_pareto_front

  /** The Filter test keeping the front members that new scores do not dominate. */
  function NotDominatedBy(objectives: seq<string>, scores: Scores): Solution -> bool
  {
    (x: Solution) => !Dominates(objectives, scores, x.objectiveScores)
  }

  /** Some member of the front dominates the scores. */
  predicate DominatedIn(objectives: seq<string>, front: seq<Solution>, scores: Scores)
  {
    exists x :: x in front && Dominates(objectives, x.objectiveScores, scores)
  }

  /**
   * The front after `update_pareto_front(s)`: the members s does not dominate, in their order,
   * followed by s unless one of them dominates it.
   */
  function ParetoUpdate(objectives: seq<string>, front: seq<Solution>, s: Solution): seq<Solution>
  {
    var survivors := Filter(front, NotDominatedBy(objectives, s.objectiveScores));
    if DominatedIn(objectives, survivors, s.objectiveScores) then survivors else survivors + [s]
  }

  /** No member of the front dominates another. */
  predicate Antichain(objectives: seq<string>, front: seq<Solution>)
  {
    forall a, b :: a in front && b in front ==> !Dominates(objectives, a.objectiveScores, b.objectiveScores)
  }

  /**
   * The update keeps exactly the old members s does not dominate, adds s exactly when none of
   * them dominates it, and never adds s when any old member dominates it.
   */
  lemma {:induction false} ParetoUpdateSpec(objectives: seq<string>, front: seq<Solution>, s: Solution)
    ensures forall x :: x in ParetoUpdate(objectives, front, s) <==>
              (x in front && !Dominates(objectives, s.objectiveScores, x.objectiveScores)) ||
              (x == s && !DominatedIn(objectives, Filter(front, NotDominatedBy(objectives, s.objectiveScores)), s.objectiveScores))
    ensures DominatedIn(objectives, front, s.objectiveScores) ==>
              ParetoUpdate(objectives, front, s) == Filter(front, NotDominatedBy(objectives, s.objectiveScores))
  {
    var f := NotDominatedBy(objectives, s.objectiveScores);
    var survivors := Filter(front, f);
    forall x
      ensures x in survivors <==> x in front && !Dominates(objectives, s.objectiveScores, x.objectiveScores)
    {
      FilterMember(front, f, x);
    }
    if DominatedIn(objectives, front, s.objectiveScores) {
      var y :| y in front && Dominates(objectives, y.objectiveScores, s.objectiveScores);
      DominanceOrder(objectives, y.objectiveScores, s.objectiveScores, s.objectiveScores);
      assert y in survivors;
    }
  }

  /** A front in which no member dominates another stays so after an update. */
  lemma {:induction false} ParetoUpdateAntichain(objectives: seq<string>, front: seq<Solution>, s: Solution)
    requires Antichain(objectives, front)
    ensures Antichain(objectives, ParetoUpdate(objectives, front, s))
  {
    ParetoUpdateSpec(objectives, front, s);
    var r := ParetoUpdate(objectives, front, s);
    var survivors := Filter(front, NotDominatedBy(objectives, s.objectiveScores));
    forall a, b | a in r && b in r
      ensures !Dominates(objectives, a.objectiveScores, b.objectiveScores)
    {
      DominanceOrder(objectives, a.objectiveScores, b.objectiveScores, b.objectiveScores);
      if a in survivors && b == s && a != s {
        assert !DominatedIn(objectives, survivors, s.objectiveScores);
      }
    }
  }

  /** The list comprehension of `update_pareto_front`: the members the scores do not dominate. */
  method Survivors(objectives: seq<string>, front: seq<Solution>, scores: Scores) returns (survivors: seq<Solution>)
    requires forall x :: x in front ==> HasAll(objectives, x.objectiveScores)
    requires HasAll(objectives, scores)
    ensures survivors == Filter(front, NotDominatedBy(objectives, scores))
    ensures forall x :: x in survivors <==> x in front && !Dominates(objectives, scores, x.objectiveScores)
  {
    survivors := [];
    var i := 0;
    while i < |front|
      invariant 0 <= i <= |front|
      invariant survivors == Filter(front[..i], NotDominatedBy(objectives, scores))
    {
      var d := IsParetoDominant(objectives, scores, front[i].objectiveScores);
      assert front[..i + 1] == front[..i] + [front[i]];
      if !d {
        survivors := survivors + [front[i]];
      }
      i := i + 1;
    }
    assert front[..i] == front;
    forall x
      ensures x in survivors <==> x in front && !Dominates(objectives, scores, x.objectiveScores)
    {
      FilterMember(front, NotDominatedBy(objectives, scores), x);
    }
  }

  /** The `any(...)` of `update_pareto_front`: some member dominates the scores. */
  method AnyDominates(objectives: seq<string>, front: seq<Solution>, scores: Scores) returns (dominated: bool)
    requires forall x :: x in front ==> HasAll(objectives, x.objectiveScores)
    requires HasAll(objectives, scores)
    ensures dominated <==> DominatedIn(objectives, front, scores)
  {
    dominated := false;
    var j := 0;
    while j < |front|
      invariant 0 <= j <= |front|
      invariant dominated <==> exists k :: 0 <= k < j && Dominates(objectives, front[k].objectiveScores, scores)
    {
      var d := IsParetoDominant(objectives, front[j].objectiveScores, scores);
      dominated := dominated || d;
      j := j + 1;
    }
  }

  /** `MultiObjectiveOptimizationEngine`: the objective names and the current Pareto front. */
  class MultiObjectiveEngine {
    const objectives: seq<string>
    var paretoFront: seq<Solution>

    /** Every front member has a score for every objective. */
    predicate Valid()
      reads this
    {
      forall x :: x in paretoFront ==> HasAll(objectives, x.objectiveScores)
    }

    /** A new engine has an empty front. */
    constructor (objectives: seq<string>)
      ensures this.objectives == objectives && paretoFront == []
      ensures Valid()
    {
      this.objectives := objectives;
      paretoFront := [];
    }

    /**
     * `update_pareto_front`: drop the members the new solution dominates, then append it unless
     * a remaining member dominates it. A front without mutual dominance stays so.
     */
    method UpdateParetoFront(solution: Solution)
      requires Valid() && HasAll(objectives, solution.objectiveScores)
      modifies this
      ensures paretoFront == ParetoUpdate(objectives, old(paretoFront), solution)
      ensures Valid()
      ensures Antichain(objectives, old(paretoFront)) ==> Antichain(objectives, paretoFront)
    {
      var scores := solution.objectiveScores;
      var survivors := Survivors(objectives, paretoFront, scores);
      var dominated := AnyDominates(objectives, survivors, scores);
      if !dominated {
        survivors := survivors + [solution];
      }
      paretoFront := survivors;
      if Antichain(objectives, old(paretoFront)) {
        ParetoUpdateAntichain(objectives, old(paretoFront), solution);
      }
    }
  }

  // ---------------------------------------------------------------- evaluate_multi_objective

  /** The bonus `evaluate_multi_objective` reports for an objective; an unknown name scores 0. */
  function ObjectiveBonus(b: FitnessCalculator.Bonuses, objective: string): real
  {
    if objective == "adjacency" then b.adjacency
    else if objective == "compactness" then b.compactness
    else if objective == "utilization" then b.utilization
    else if objective == "accessibility" then b.accessibility
    else if objective == "sequence" then b.sequence
    else 0.0
  }

  /**
   * `evaluate_multi_objective`: None stands for every objective scoring `-inf` on a layout the
   * handler rejects; otherwise each objective gets its bonus from the fitness breakdown.
   */
  function ObjectiveScores(c: FitnessCalculator.Calculator, h: ConstraintHandler.Handler, objectives: seq<string>,
                           layout: seq<Rect>): (r: Option<Scores>)
    ensures r.None? <==> !ConstraintHandler.ValidLayout(h, layout)
    ensures r.Some? ==> HasAll(objectives, r.value)
    ensures r.Some? ==> forall o :: o in r.value <==> o in objectives
    ensures r.Some? ==> forall o :: o in r.value ==> r.value[o] == ObjectiveBonus(FitnessCalculator.BonusesOf(c, layout), o)
  {
    if !ConstraintHandler.ValidLayout(h, layout) then None
    else
      var b := FitnessCalculator.BonusesOf(c, layout);
      Some(map o | o in objectives :: ObjectiveBonus(b, o))
  }
}
