/**
 * The improved sequence-based generator (`ImprovedSequenceLayoutGenerator`). The main chain is
 * the baseline's, but the first process starts from a handful of scored seed positions instead
 * of the site centre, rotation and direction vectors that cannot lead to a good layout are
 * pruned before the chain is tried, and above 2000 combinations only a sample of (seed,
 * rotation vector, direction vector) index triples is tried. Sub processes are placed as in the
 * baseline on a coarser grid.
 *
 * Randomness (`random.randint` and `random.shuffle`) is a parameter: a function giving the raw
 * draw of every attempt.
 */
module LayoutGeneratorImproved {
  import opened Wrappers
  import opened Collect
  import opened Sorting
  import opened Geometry
  import opened Text
  import opened LayoutGenerator

  /** Above this many combinations the generator samples. */
  const CombinationThreshold: nat := 2000
  /** How many index triples a sample holds at most. */
  const TargetSampleSize: nat := 500
  /** `int(500 * 0.3)`: the strategic share of a sample (500 * 0.3 rounds to exactly 150.0). */
  const QualitySamples: nat := 150
  /** Seed positions kept per rotation state. */
  const MaxSeedPositions: nat := 5
  /** The safety margin of the corner seeds. */
  const SeedMargin: real := 50.0
  /** `_generate_grid_positions` of the improved generator: 25 m cells, every second one. */
  const ImprovedGrid: Grid := Coarse

  /** A seed strategy: where the first main process goes, and whether it is rotated. */
  datatype Seed = Seed(x: real, y: real, rotated: bool)

  /** The seed score divides by the distance from the site centre to its corner, which must not be 0. */
  predicate HasExtent(site: Site)
  {
    site.width != 0.0 || site.height != 0.0
  }

  // ---------------------------------------------------------------- strategic seed positions

  /**
   * `_generate_strategic_seed_positions` before its validity filter: the centre, the four
   * corners inside a 50 m margin and the four third points, in that order.
   */
  function SeedCandidates(site: Site, p: Process, rotated: bool): (ps: seq<(real, real)>)
    ensures |ps| == 9
  {
    var w := if rotated then p.h else p.w;
    var h := if rotated then p.w else p.h;
    var W, H := site.width, site.height;
    var hw, hh := FloorDiv(w, 2.0), FloorDiv(h, 2.0);
    [(FloorDiv(W, 2.0) - hw, FloorDiv(H, 2.0) - hh),
     (SeedMargin, SeedMargin),
     (W - w - SeedMargin, SeedMargin),
     (SeedMargin, H - h - SeedMargin),
     (W - w - SeedMargin, H - h - SeedMargin),
     (FloorDiv(W, 3.0) - hw, FloorDiv(H, 3.0) - hh),
     (FloorDiv(W * 2.0, 3.0) - hw, FloorDiv(H, 3.0) - hh),
     (FloorDiv(W, 3.0) - hw, FloorDiv(H * 2.0, 3.0) - hh),
     (FloorDiv(W * 2.0, 3.0) - hw, FloorDiv(H * 2.0, 3.0) - hh)]
  }

  /**
   * The centre candidate centres the process on the site, the corner candidates keep it 50 m
   * from the two sides of their corner, and the third points centre it on the thirds (the floor
   * division moves a centre by less than 1 m).
   */
  lemma {:induction false} SeedCandidatesSpec(site: Site, p: Process, rotated: bool)
    ensures var ps := SeedCandidates(site, p, rotated); var r := CreateRect(p, ps[0].0, ps[0].1, rotated);
      Abs(CenterX(r) - site.width / 2.0) < 1.0 && Abs(CenterY(r) - site.height / 2.0) < 1.0
    ensures var ps := SeedCandidates(site, p, rotated); var r := CreateRect(p, ps[1].0, ps[1].1, rotated);
      r.x == SeedMargin && r.y == SeedMargin
    ensures var ps := SeedCandidates(site, p, rotated); var r := CreateRect(p, ps[2].0, ps[2].1, rotated);
      Geometry.Right(r) == site.width - SeedMargin && r.y == SeedMargin
    ensures var ps := SeedCandidates(site, p, rotated); var r := CreateRect(p, ps[3].0, ps[3].1, rotated);
      r.x == SeedMargin && Geometry.Bottom(r) == site.height - SeedMargin
    ensures var ps := SeedCandidates(site, p, rotated); var r := CreateRect(p, ps[4].0, ps[4].1, rotated);
      Geometry.Right(r) == site.width - SeedMargin && Geometry.Bottom(r) == site.height - SeedMargin
    ensures var ps := SeedCandidates(site, p, rotated);
      forall k :: 5 <= k < 9 ==> var r := CreateRect(p, ps[k].0, ps[k].1, rotated);
        Abs(CenterX(r) - (if k % 2 == 1 then 1.0 else 2.0) * site.width / 3.0) < 1.0 &&
        Abs(CenterY(r) - (if k < 7 then 1.0 else 2.0) * site.height / 3.0) < 1.0
  {
  }

  /** `_is_valid_seed_placement`: inside the site boundary and clear of every fixed zone. */
  predicate ValidSeed(site: Site, r: Rect)
  {
    InBounds(r, site.width, site.height) && Clear(site.zones, r)
  }

  function ValidSeedAt(site: Site, p: Process, rotated: bool): ((real, real)) -> bool
  {
    (pos: (real, real)) => ValidSeed(site, CreateRect(p, pos.0, pos.1, rotated))
  }

  method IsValidSeedPlacement(site: Site, r: Rect) returns (ok: bool)
    ensures ok <==> r.x >= 0.0 && r.y >= 0.0 && Geometry.Right(r) <= site.width && Geometry.Bottom(r) <= site.height &&
                    forall k :: 0 <= k < |site.zones| ==> !Overlaps(r, site.zones[k])
  {
    if r.x < 0.0 || r.y < 0.0 || r.x + r.w > site.width || r.y + r.h > site.height {
      return false;
    }
    ok := IsClear(site.zones, r);
  }

  /** `_generate_strategic_seed_positions`: the candidates whose rectangle is a valid seed, in order. */
  method GenerateStrategicSeedPositions(site: Site, p: Process, rotated: bool) returns (ps: seq<(real, real)>)
    ensures ps == Filter(SeedCandidates(site, p, rotated), ValidSeedAt(site, p, rotated))
  {
    var cands := SeedCandidates(site, p, rotated);
    ps := [];
    for k := 0 to |cands|
      invariant ps == Filter(cands[..k], ValidSeedAt(site, p, rotated))
    {
      assert cands[..k + 1][..k] == cands[..k];
      var ok := IsValidSeedPlacement(site, CreateRect(p, cands[k].0, cands[k].1, rotated));
      if ok {
        ps := ps + [cands[k]];
      }
    }
    assert cands[..|cands|] == cands;
  }

  // ---------------------------------------------------------------- seed scores

  const ParkingWords: seq<string> := ["parking", "\U{C8FC}\U{CC28}"]
  const GateWords: seq<string> := ["gate", "\U{AC8C}\U{C774}\U{D2B8}", "entrance"]
  const UtilityWords: seq<string> := ["utility", "\U{BCC0}\U{C804}", "power"]

  /** A parking zone: its lower-cased name names parking, or its id contains "ES". */
  predicate ParkingZone(z: Rect) { ContainsAny(Lower(NameOf(z)), ParkingWords) || Contains(z.id, "ES") }
  /** A gate zone: its lower-cased name names a gate or entrance, or its id contains "NB". */
  predicate GateZone(z: Rect) { ContainsAny(Lower(NameOf(z)), GateWords) || Contains(z.id, "NB") }
  /** A utility zone, by its lower-cased name only. */
  predicate UtilityZone(z: Rect) { ContainsAny(Lower(NameOf(z)), UtilityWords) }

  /**
   * What one fixed zone adds to a seed's score, by the centre distance d: a parking zone wants
   * 100 <= d <= 300 (+50) and punishes d > 500 (-20), a gate wants d < 200 (+40) and punishes
   * d > 400 (-15), a utility wants 50 <= d <= 200 (+30) and punishes d < 30 (-40). A zone can be
   * several kinds at once.
   */
  function ZoneScore(z: Rect, r: Rect): (s: real)
    ensures -75.0 <= s <= 120.0
    ensures !ParkingZone(z) && !GateZone(z) && !UtilityZone(z) ==> s == 0.0
    ensures CenterDistance(r, z) > 500.0 ==> s == (if ParkingZone(z) then -20.0 else 0.0) + (if GateZone(z) then -15.0 else 0.0)
  {
    var d := CenterDistance(r, z);
    (if ParkingZone(z) then (if 100.0 <= d <= 300.0 then 50.0 else if d > 500.0 then -20.0 else 0.0) else 0.0) +
    (if GateZone(z) then (if d < 200.0 then 40.0 else if d > 400.0 then -15.0 else 0.0) else 0.0) +
    (if UtilityZone(z) then (if 50.0 <= d <= 200.0 then 30.0 else if d < 30.0 then -40.0 else 0.0) else 0.0)
  }

  /** The zone terms of the first n zones. */
  function ZoneScores(zones: seq<Rect>, r: Rect, n: nat): (s: real)
    requires n <= |zones|
    ensures -75.0 * n as real <= s <= 120.0 * n as real
  {
    if n == 0 then 0.0 else ZoneScores(zones, r, n - 1) + ZoneScore(zones[n - 1], r)
  }

  /** Zones with none of the keywords do not change a seed's score. */
  lemma {:induction false} PlainZonesScoreNothing(zones: seq<Rect>, r: Rect, n: nat)
    requires n <= |zones|
    requires forall k :: 0 <= k < n ==> !ParkingZone(zones[k]) && !GateZone(zones[k]) && !UtilityZone(zones[k])
    ensures ZoneScores(zones, r, n) == 0.0
  {
    if n > 0 {
      PlainZonesScoreNothing(zones, r, n - 1);
    }
  }

  /**
   * The centring term: the distance of the rectangle's centre from the site centre, relative to
   * the half diagonal, earns +60 between 0.3 and 0.7, +30 below 0.2 and -30 above 0.8. The half
   * diagonal is positive, so each comparison of the ratio is one of the distance with a multiple
   * of the half diagonal.
   */
  function CentreScore(site: Site, r: Rect): (s: real)
    requires HasExtent(site)
    ensures s == 60.0 || s == 30.0 || s == -30.0 || s == 0.0
    ensures CenterX(r) == site.width / 2.0 && CenterY(r) == site.height / 2.0 ==> s == 30.0
  {
    var dx, dy := CenterX(r) - site.width / 2.0, CenterY(r) - site.height / 2.0;
    var d, half := Hypot(dx, dy), Hypot(site.width / 2.0, site.height / 2.0);
    HypotZero(dx, dy);
    assert half > 0.0;
    if 0.3 * half <= d <= 0.7 * half then 60.0 else if d < 0.2 * half then 30.0
    else if d > 0.8 * half then -30.0 else 0.0
  }

  /** The room left on the tightest of the four sides. */
  function Clearance(site: Site, r: Rect): real
  {
    Min(Min(r.x, site.width - Geometry.Right(r)), Min(r.y, site.height - Geometry.Bottom(r)))
  }

  /** The expansion term: +40 when more than 100 m are left on every side, -20 when less than 30 m on some side. */
  function ExpansionScore(site: Site, r: Rect): (s: real)
    ensures s == 40.0 <==> r.x > 100.0 && site.width - Geometry.Right(r) > 100.0 && r.y > 100.0 && site.height - Geometry.Bottom(r) > 100.0
    ensures s == -20.0 <==> r.x < 30.0 || site.width - Geometry.Right(r) < 30.0 || r.y < 30.0 || site.height - Geometry.Bottom(r) < 30.0
    ensures s == 40.0 || s == -20.0 || s == 0.0
  {
    var e := Clearance(site, r);
    if e > 100.0 then 40.0 else if e < 30.0 then -20.0 else 0.0
  }

  /** The score `_select_optimal_seed_positions` gives a seed rectangle. */
  function SeedScore(site: Site, r: Rect): (s: real)
    requires HasExtent(site)
  {
    ZoneScores(site.zones, r, |site.zones|) + CentreScore(site, r) + ExpansionScore(site, r)
  }

  /** Every seed score lies between what all zones' penalties and all zones' bonuses give. */
  lemma {:induction false} SeedScoreRange(site: Site, r: Rect)
    requires HasExtent(site)
    ensures -75.0 * |site.zones| as real - 50.0 <= SeedScore(site, r) <= 120.0 * |site.zones| as real + 100.0
  {
  }

  /** The scoring loop for one position. */
  method ScoreSeedPosition(site: Site, p: Process, x: real, y: real, rotated: bool) returns (score: real)
    requires HasExtent(site)
    ensures score == SeedScore(site, CreateRect(p, x, y, rotated))
  {
    var r := CreateRect(p, x, y, rotated);
    score := 0.0;
    for k := 0 to |site.zones|
      invariant score == ZoneScores(site.zones, r, k)
    {
      var zs := ScoreAgainstZone(site.zones[k], r);
      score := score + zs;
    }
    score := score + CentreScore(site, r) + ExpansionScore(site, r);
  }

  /** The three zone tests of the scoring loop. */
  method ScoreAgainstZone(z: Rect, r: Rect) returns (zs: real)
    ensures zs == ZoneScore(z, r)
  {
    var d := CenterDistance(r, z);
    var name := Lower(NameOf(z));
    zs := 0.0;
    if ContainsAny(name, ParkingWords) || Contains(z.id, "ES") {
      if 100.0 <= d <= 300.0 {
        zs := zs + 50.0;
      } else if d > 500.0 {
        zs := zs - 20.0;
      }
    }
    if ContainsAny(name, GateWords) || Contains(z.id, "NB") {
      if d < 200.0 {
        zs := zs + 40.0;
      } else if d > 400.0 {
        zs := zs - 15.0;
      }
    }
    if ContainsAny(name, UtilityWords) {
      if 50.0 <= d <= 200.0 {
        zs := zs + 30.0;
      } else if d < 30.0 {
        zs := zs - 40.0;
      }
    }
  }

  // ---------------------------------------------------------------- choosing the seed positions

  datatype ScoredPosition = ScoredPosition(x: real, y: real, score: real)

  function ScoreOf(e: ScoredPosition): real { e.score }

  /** A position with the score of the process placed there. */
  function ScoredAt(site: Site, p: Process, pos: (real, real), rotated: bool): ScoredPosition
    requires HasExtent(site)
  {
    ScoredPosition(pos.0, pos.1, SeedScore(site, CreateRect(p, pos.0, pos.1, rotated)))
  }

  /** The scoring of one position, in the shape `Indexed` takes (the number is not used). */
  function Scorer(site: Site, p: Process, rotated: bool): ((real, real), nat) -> ScoredPosition
    requires HasExtent(site)
  {
    (pos: (real, real), _: nat) => ScoredAt(site, p, pos, rotated)
  }

  /** The first n positions with their scores, as `scored_positions` collects them. */
  function ScoredPositions(site: Site, p: Process, ps: seq<(real, real)>, rotated: bool, n: nat): (es: seq<ScoredPosition>)
    requires HasExtent(site) && n <= |ps|
    ensures |es| == n
  {
    IndexedSpec(ps, n, Scorer(site, p, rotated));
    Indexed(ps, n, Scorer(site, p, rotated))
  }

  /** Entry k holds the k-th position and the score of the process placed there. */
  lemma ScoredPositionsSpec(site: Site, p: Process, ps: seq<(real, real)>, rotated: bool, n: nat)
    requires HasExtent(site) && n <= |ps|
    ensures forall k :: 0 <= k < n ==>
      ScoredPositions(site, p, ps, rotated, n)[k] == ScoredAt(site, p, ps[k], rotated)
  {
    IndexedSpec(ps, n, Scorer(site, p, rotated));
  }

  function Coordinates(es: seq<ScoredPosition>): seq<(real, real)>
  {
    seq(|es|, (i: int) requires 0 <= i < |es| => (es[i].x, es[i].y))
  }

  /** The scored positions in descending score order, equal scores in input order. */
  function RankedPositions(site: Site, p: Process, ps: seq<(real, real)>, rotated: bool): seq<ScoredPosition>
    requires HasExtent(site)
  {
    SortDesc(ScoredPositions(site, p, ps, rotated, |ps|), ScoreOf)
  }

  /** `_select_optimal_seed_positions`: the positions of the five best scores. */
  function SelectSeeds(site: Site, p: Process, ps: seq<(real, real)>, rotated: bool): seq<(real, real)>
    requires HasExtent(site)
  {
    if ps == [] then [] else Coordinates(Take(RankedPositions(site, p, ps, rotated), MaxSeedPositions))
  }

  method SelectOptimalSeedPositions(site: Site, p: Process, ps: seq<(real, real)>, rotated: bool) returns (sel: seq<(real, real)>)
    requires HasExtent(site)
    ensures sel == SelectSeeds(site, p, ps, rotated)
  {
    if ps == [] {
      return [];
    }
    var scored := [];
    for k := 0 to |ps|
      invariant scored == ScoredPositions(site, p, ps, rotated, k)
    {
      var score := ScoreSeedPosition(site, p, ps[k].0, ps[k].1, rotated);
      scored := scored + [ScoredPosition(ps[k].0, ps[k].1, score)];
    }
    var ranked := SortDesc(scored, ScoreOf);
    sel := Coordinates(Take(ranked, MaxSeedPositions));
  }

  /**
   * The selection is the top of a ranking: min(5, n) positions, each one of the candidates;
   * the ranking is a reordering of the scored candidates by non-increasing score, so no
   * position left out scores above a selected one.
   */
  lemma {:induction false} SelectSeedsTop(site: Site, p: Process, ps: seq<(real, real)>, rotated: bool)
    requires HasExtent(site)
    ensures var sel, t, m := SelectSeeds(site, p, ps, rotated), RankedPositions(site, p, ps, rotated), if |ps| < 5 then |ps| else 5;
      |sel| == m && |t| == |ps| &&
      (forall i :: 0 <= i < m ==> sel[i] == (t[i].x, t[i].y) && sel[i] in ps)
    ensures SortedDesc(RankedPositions(site, p, ps, rotated), ScoreOf)
    ensures multiset(RankedPositions(site, p, ps, rotated)) == multiset(ScoredPositions(site, p, ps, rotated, |ps|))
  {
    var t := RankedPositions(site, p, ps, rotated);
    SortDescSorted(ScoredPositions(site, p, ps, rotated, |ps|), ScoreOf);
    assert |t| == |multiset(t)| == |ps|;
    forall i | 0 <= i < |t|
      ensures (t[i].x, t[i].y) in ps
    {
      RankedFromCandidates(site, p, ps, rotated, t[i]);
    }
    TopCoordinates(t, ps);
  }

  /** The coordinates of the first five entries of a ranking of candidates. */
  lemma {:induction false} TopCoordinates(t: seq<ScoredPosition>, ps: seq<(real, real)>)
    requires forall i :: 0 <= i < |t| ==> (t[i].x, t[i].y) in ps
    ensures var sel, m := Coordinates(Take(t, MaxSeedPositions)), if |t| < 5 then |t| else 5;
      |sel| == m && forall i :: 0 <= i < m ==> sel[i] == (t[i].x, t[i].y) && sel[i] in ps
  {
  }

  /** Every ranked entry carries the coordinates of one of the candidates. */
  lemma {:induction false} RankedFromCandidates(site: Site, p: Process, ps: seq<(real, real)>, rotated: bool, e: ScoredPosition)
    requires HasExtent(site)
    requires e in RankedPositions(site, p, ps, rotated)
    ensures (e.x, e.y) in ps
  {
    var s := ScoredPositions(site, p, ps, rotated, |ps|);
    SortDescSorted(s, ScoreOf);
    ScoredPositionsSpec(site, p, ps, rotated, |ps|);
    assert e in multiset(s);
    var k :| 0 <= k < |s| && s[k] == e;
    assert e == ScoredAt(site, p, ps[k], rotated);
  }

  // ---------------------------------------------------------------- seed strategies

  /** The seeds of one rotation state: the selected valid strategic positions. */
  function Seeds(site: Site, p: Process, rotated: bool): (ss: seq<Seed>)
    requires HasExtent(site)
  {
    SeedList(SelectSeeds(site, p, Filter(SeedCandidates(site, p, rotated), ValidSeedAt(site, p, rotated)), rotated), rotated)
  }

  /** One seed per selected position, all with the same rotation. */
  function SeedList(sel: seq<(real, real)>, rotated: bool): (ss: seq<Seed>)
    ensures |ss| == |sel| && forall i :: 0 <= i < |sel| ==> ss[i] == Seed(sel[i].0, sel[i].1, rotated)
  {
    seq(|sel|, (i: int) requires 0 <= i < |sel| => Seed(sel[i].0, sel[i].1, rotated))
  }

  /** `_generate_seed_strategies`: the unrotated seeds, then the rotated ones. */
  function SeedStrategies(site: Site, p: Process): seq<Seed>
    requires HasExtent(site)
  {
    Seeds(site, p, false) + Seeds(site, p, true)
  }

  /** The loop `for rotated in [False, True]`. */
  method GenerateSeedStrategies(site: Site, p: Process) returns (strategies: seq<Seed>)
    requires HasExtent(site)
    ensures strategies == SeedStrategies(site, p)
  {
    strategies := [];
    var states := [false, true];
    for t := 0 to 2
      invariant strategies == if t == 0 then [] else if t == 1 then Seeds(site, p, false) else SeedStrategies(site, p)
    {
      var added := SeedsWithRotation(site, p, states[t]);
      strategies := strategies + added;
    }
  }

  /** One pass of that loop: the strategic positions, the best of them, one seed each. */
  method SeedsWithRotation(site: Site, p: Process, rotated: bool) returns (added: seq<Seed>)
    requires HasExtent(site)
    ensures added == Seeds(site, p, rotated)
  {
    var positions := GenerateStrategicSeedPositions(site, p, rotated);
    var optimal := SelectOptimalSeedPositions(site, p, positions, rotated);
    added := MakeSeeds(optimal, rotated);
  }

  /** The inner loop `for x, y in optimal_positions`: one strategy per position. */
  method MakeSeeds(sel: seq<(real, real)>, rotated: bool) returns (added: seq<Seed>)
    ensures added == SeedList(sel, rotated)
  {
    added := [];
    for k := 0 to |sel|
      invariant |added| == k && forall i :: 0 <= i < k ==> added[i] == Seed(sel[i].0, sel[i].1, rotated)
    {
      added := added + [Seed(sel[k].0, sel[k].1, rotated)];
    }
  }

  /**
   * At most five seeds per rotation state, the unrotated ones first; every seed is one of the
   * nine strategic positions and puts the first process inside the site, clear of every fixed
   * zone.
   */
  lemma {:induction false} SeedStrategiesValid(site: Site, p: Process)
    requires HasExtent(site)
    ensures var ss := SeedStrategies(site, p);
      |ss| <= 2 * MaxSeedPositions &&
      (forall i :: 0 <= i < |ss| ==> ValidSeed(site, CreateRect(p, ss[i].x, ss[i].y, ss[i].rotated))) &&
      (forall i :: 0 <= i < |ss| ==> (ss[i].x, ss[i].y) in SeedCandidates(site, p, ss[i].rotated)) &&
      (forall i, j :: 0 <= i < j < |ss| && !ss[j].rotated ==> !ss[i].rotated)
  {
    SeedsValid(site, p, false);
    SeedsValid(site, p, true);
  }

  lemma {:induction false} SeedsValid(site: Site, p: Process, rotated: bool)
    requires HasExtent(site)
    ensures var ss := Seeds(site, p, rotated);
      |ss| <= MaxSeedPositions &&
      (forall i :: 0 <= i < |ss| ==> ss[i].rotated == rotated && ValidSeed(site, CreateRect(p, ss[i].x, ss[i].y, rotated))) &&
      (forall i :: 0 <= i < |ss| ==> (ss[i].x, ss[i].y) in SeedCandidates(site, p, rotated))
  {
    var cands := SeedCandidates(site, p, rotated);
    var valid := Filter(cands, ValidSeedAt(site, p, rotated));
    var sel := SelectSeeds(site, p, valid, rotated);
    SelectedFrom(site, p, valid, rotated);
    forall i | 0 <= i < |sel|
      ensures sel[i] in cands && ValidSeed(site, CreateRect(p, sel[i].0, sel[i].1, rotated))
    {
      FilterMember(cands, ValidSeedAt(site, p, rotated), sel[i]);
    }
    SeedListFrom(site, p, sel, cands, rotated);
  }

  /** Seeds made from valid candidate positions are valid candidate seeds. */
  lemma {:induction false} SeedListFrom(site: Site, p: Process, sel: seq<(real, real)>, cands: seq<(real, real)>, rotated: bool)
    requires forall i :: 0 <= i < |sel| ==> sel[i] in cands && ValidSeed(site, CreateRect(p, sel[i].0, sel[i].1, rotated))
    ensures var ss := SeedList(sel, rotated);
      |ss| == |sel| &&
      (forall i :: 0 <= i < |ss| ==> ss[i].rotated == rotated && ValidSeed(site, CreateRect(p, ss[i].x, ss[i].y, rotated))) &&
      (forall i :: 0 <= i < |ss| ==> (ss[i].x, ss[i].y) in cands)
  {
  }

  /** The selection keeps at most five of the given positions. */
  lemma {:induction false} SelectedFrom(site: Site, p: Process, ps: seq<(real, real)>, rotated: bool)
    requires HasExtent(site)
    ensures var sel := SelectSeeds(site, p, ps, rotated);
      |sel| <= MaxSeedPositions && forall i :: 0 <= i < |sel| ==> sel[i] in ps
  {
    SelectSeedsTop(site, p, ps, rotated);
  }

  // ---------------------------------------------------------------- pruning rotation vectors

  /** Width and height of a process with the given rotation. */
  function RotatedSize(p: Process, rotated: bool): (real, real)
  {
    if rotated then (p.h, p.w) else (p.w, p.h)
  }

  /** The area the viability test counts for a process; turning it does not change it. */
  function RotatedArea(p: Process, rotated: bool): (a: real)
    ensures a == p.w * p.h
  {
    if rotated then p.h * p.w else p.w * p.h
  }

  /** Summed process area over the first n processes. */
  function AreaSum(procs: seq<Process>, rots: seq<bool>, n: nat): real
    requires n <= |procs| && n <= |rots|
  {
    if n == 0 then 0.0 else AreaSum(procs, rots, n - 1) + RotatedArea(procs[n - 1], rots[n - 1])
  }

  /** The area test depends on the processes only, not on how they are turned. */
  lemma {:induction false} AreaSumIgnoresRotation(procs: seq<Process>, rots1: seq<bool>, rots2: seq<bool>, n: nat)
    requires n <= |procs| && n <= |rots1| && n <= |rots2|
    ensures AreaSum(procs, rots1, n) == AreaSum(procs, rots2, n)
  {
    if n > 0 {
      AreaSumIgnoresRotation(procs, rots1, rots2, n - 1);
    }
  }

  /**
   * A shape is long when the ratio of its longer side to its shorter one exceeds 3 (a zero side
   * raises in the source). The ratio is stated with the divisor multiplied out, the comparison
   * turning round when the divisor is negative.
   */
  predicate LongShape(w: real, h: real)
  {
    (Min(w, h) > 0.0 && Max(w, h) > 3.0 * Min(w, h)) || (Min(w, h) < 0.0 && Max(w, h) < 3.0 * Min(w, h))
  }

  predicate LongAt(procs: seq<Process>, rots: seq<bool>, i: nat)
    requires i < |procs| && i < |rots|
  {
    var (w, h) := RotatedSize(procs[i], rots[i]);
    LongShape(w, h)
  }

  function LongCount(procs: seq<Process>, rots: seq<bool>, n: nat): (c: nat)
    requires n <= |procs| && n <= |rots|
    ensures c <= n
  {
    if n == 0 then 0 else LongCount(procs, rots, n - 1) + (if LongAt(procs, rots, n - 1) then 1 else 0)
  }

  predicate FitsSite(site: Site, p: Process, rotated: bool)
  {
    var (w, h) := RotatedSize(p, rotated);
    w <= site.width && h <= site.height
  }

  /** The site's area less the area of its zones. */
  function FreeArea(site: Site): real
  {
    site.width * site.height - TotalArea(site.zones)
  }

  /**
   * `_is_viable_rotation_combination`: the processes take at most 80 % of the area the fixed
   * zones leave free, each fits the site with its rotation, and at most half of them (rounded
   * down) are long shapes.
   */
  predicate ViableRotation(site: Site, procs: seq<Process>, rots: seq<bool>)
  {
    |rots| == |procs| &&
    !(AreaSum(procs, rots, |procs|) > FreeArea(site) * 0.8) &&
    (forall i :: 0 <= i < |procs| ==> FitsSite(site, procs[i], rots[i])) &&
    LongCount(procs, rots, |procs|) <= |procs| / 2
  }

  function RotationViable(site: Site, procs: seq<Process>): seq<bool> -> bool
  {
    (rots: seq<bool>) => ViableRotation(site, procs, rots)
  }

  /** The three tests in the source's order; the first failing one decides. */
  method IsViableRotationCombination(site: Site, procs: seq<Process>, rots: seq<bool>) returns (ok: bool)
    requires |rots| == |procs|
    ensures ok == ViableRotation(site, procs, rots)
  {
    var total := TotalProcessArea(procs, rots);
    var available := FreeArea(site);
    if total > available * 0.8 {
      return false;
    }
    ok := AllFit(site, procs, rots);
    if !ok {
      return false;
    }
    var long := CountLongShapes(procs, rots);
    ok := long <= |procs| / 2;
  }

  /** The area loop. */
  method TotalProcessArea(procs: seq<Process>, rots: seq<bool>) returns (total: real)
    requires |rots| == |procs|
    ensures total == AreaSum(procs, rots, |procs|)
  {
    total := 0.0;
    for i := 0 to |procs|
      invariant total == AreaSum(procs, rots, i)
    {
      total := total + RotatedArea(procs[i], rots[i]);
    }
  }

  /** The size loop, returning False at the first process larger than the site. */
  method AllFit(site: Site, procs: seq<Process>, rots: seq<bool>) returns (ok: bool)
    requires |rots| == |procs|
    ensures ok <==> forall i :: 0 <= i < |procs| ==> FitsSite(site, procs[i], rots[i])
  {
    for i := 0 to |procs|
      invariant forall k :: 0 <= k < i ==> FitsSite(site, procs[k], rots[k])
    {
      var (w, h) := RotatedSize(procs[i], rots[i]);
      if w > site.width || h > site.height {
        return false;
      }
    }
    return true;
  }

  /** The aspect-ratio loop: how many of the shapes are long. */
  method CountLongShapes(procs: seq<Process>, rots: seq<bool>) returns (long: nat)
    requires |rots| == |procs|
    ensures long == LongCount(procs, rots, |procs|)
  {
    long := 0;
    for i := 0 to |procs|
      invariant long == LongCount(procs, rots, i)
    {
      var (w, h) := RotatedSize(procs[i], rots[i]);
      if LongShape(w, h) {
        long := long + 1;
      }
    }
  }

  /** `_generate_pruned_rotation_combinations`: the viable rotation vectors, or all of them if none is viable. */
  function PrunedRotations(site: Site, procs: seq<Process>): seq<seq<bool>>
  {
    FilterOr(RotationVectors(|procs|), RotationViable(site, procs))
  }

  method GeneratePrunedRotationCombinations(site: Site, procs: seq<Process>) returns (cs: seq<seq<bool>>)
    ensures cs == PrunedRotations(site, procs)
  {
    var all := RotationCombinations(|procs|);
    var viable := [];
    for k := 0 to |all|
      invariant viable == Filter(all[..k], RotationViable(site, procs))
    {
      assert all[..k + 1][..k] == all[..k];
      var ok := IsViableRotationCombination(site, procs, all[k]);
      if ok {
        viable := viable + [all[k]];
      }
    }
    assert all[..|all|] == all;
    cs := if viable != [] then viable else all;
    assert cs == FilterOr(all, RotationViable(site, procs));
  }

  /**
   * Pruning never leaves nothing to try: the result is not empty and holds only rotation
   * vectors of the right length; when some vector is viable, the result holds exactly the
   * viable ones, otherwise it is every vector.
   */
  lemma {:induction false} PrunedRotationsSpec(site: Site, procs: seq<Process>)
    ensures var cs, all := PrunedRotations(site, procs), RotationVectors(|procs|);
      cs != [] &&
      (forall c :: c in cs ==> |c| == |procs| && c in all) &&
      ((exists c :: c in all && ViableRotation(site, procs, c)) ==> forall c :: c in cs <==> |c| == |procs| && ViableRotation(site, procs, c)) &&
      ((forall c :: c in all ==> !ViableRotation(site, procs, c)) ==> cs == all)
  {
    var all := RotationVectors(|procs|);
    RotationVectorsExact(|procs|);
    assert all[0] in all;
    FilterOrSpec(all, RotationViable(site, procs));
  }

  // ---------------------------------------------------------------- pruning direction vectors

  function CountOf(dirs: seq<Direction>, d: Direction, n: nat): (c: nat)
    requires n <= |dirs|
    ensures c <= n
  {
    if n == 0 then 0 else CountOf(dirs, d, n - 1) + (if dirs[n - 1] == d then 1 else 0)
  }

  /** How often the side changes between neighbours among the first n entries. */
  function Changes(dirs: seq<Direction>, n: nat): (c: nat)
    requires n <= |dirs|
    ensures c < n || c == 0
  {
    if n <= 1 then 0 else Changes(dirs, n - 1) + (if dirs[n - 1] != dirs[n - 2] then 1 else 0)
  }

  function MaxNat(a: nat, b: nat): nat { if a >= b then a else b }
  function MinNat(a: nat, b: nat): nat { if a <= b then a else b }

  /** The largest count of a single side: `max(direction_counts.values())`. */
  function MostFrequent(dirs: seq<Direction>): nat
  {
    var n := |dirs|;
    MaxNat(MaxNat(CountOf(dirs, LayoutGenerator.Bottom, n), CountOf(dirs, LayoutGenerator.Right, n)),
           MaxNat(CountOf(dirs, Top, n), CountOf(dirs, Left, n)))
  }

  function Horizontal(dirs: seq<Direction>): nat
  {
    CountOf(dirs, Left, |dirs|) + CountOf(dirs, LayoutGenerator.Right, |dirs|)
  }

  function Vertical(dirs: seq<Direction>): nat
  {
    CountOf(dirs, Top, |dirs|) + CountOf(dirs, LayoutGenerator.Bottom, |dirs|)
  }

  /**
   * `_is_viable_direction_combination`: no side takes more than 70 % of the links, the side
   * changes at most at 80 % of them, and from three links on the busier axis has at most four
   * times the links of the other, plus one. The ratio `max / (min + 1) > 4` has a positive
   * divisor, so it is stated as `max > 4 (min + 1)`.
   */
  predicate ViableDirection(dirs: seq<Direction>)
  {
    var n := |dirs| as real;
    !(MostFrequent(dirs) as real > n * 0.7) &&
    !(Changes(dirs, |dirs|) as real > n * 0.8) &&
    !(|dirs| > 2 && MaxNat(Horizontal(dirs), Vertical(dirs)) > 4 * (MinNat(Horizontal(dirs), Vertical(dirs)) + 1))
  }

  /** Every link counts for exactly one side, so the two axes share all links. */
  lemma {:induction false} AxesCoverLinks(dirs: seq<Direction>, n: nat)
    requires n <= |dirs|
    ensures CountOf(dirs, Left, n) + CountOf(dirs, LayoutGenerator.Right, n) + CountOf(dirs, Top, n) + CountOf(dirs, LayoutGenerator.Bottom, n) == n
  {
    if n > 0 {
      AxesCoverLinks(dirs, n - 1);
    }
  }

  /** A chain that goes the same way at every link is never viable. */
  lemma {:induction false} StraightNotViable(dirs: seq<Direction>, d: Direction, n: nat)
    requires n <= |dirs| && forall k :: 0 <= k < |dirs| ==> dirs[k] == d
    ensures CountOf(dirs, d, n) == n
    ensures n == |dirs| > 0 ==> !ViableDirection(dirs)
  {
    if n > 0 {
      StraightNotViable(dirs, d, n - 1);
    }
    if n == |dirs| > 0 {
      assert MostFrequent(dirs) >= CountOf(dirs, d, n);
    }
  }

  /** The counting loop, the change-counting loop and the balance test. */
  method IsViableDirectionCombination(dirs: seq<Direction>) returns (ok: bool)
    requires dirs != []
    ensures ok == ViableDirection(dirs)
  {
    var bottom, right, top, left := 0, 0, 0, 0;
    for i := 0 to |dirs|
      invariant bottom == CountOf(dirs, LayoutGenerator.Bottom, i) && right == CountOf(dirs, LayoutGenerator.Right, i)
      invariant top == CountOf(dirs, Top, i) && left == CountOf(dirs, Left, i)
    {
      match dirs[i]
      case Bottom => bottom := bottom + 1;
      case Right => right := right + 1;
      case Top => top := top + 1;
      case Left => left := left + 1;
    }
    var most := MaxNat(MaxNat(bottom, right), MaxNat(top, left));
    if most as real > |dirs| as real * 0.7 {
      return false;
    }
    var changes := 0;
    for i := 1 to |dirs|
      invariant changes == Changes(dirs, i)
    {
      if dirs[i] != dirs[i - 1] {
        changes := changes + 1;
      }
    }
    if changes as real > |dirs| as real * 0.8 {
      return false;
    }
    var horizontal, vertical := left + right, top + bottom;
    if |dirs| > 2 {
      // max / (min + 1) > 4, with the positive divisor multiplied out
      if MaxNat(horizontal, vertical) > 4 * (MinNat(horizontal, vertical) + 1) {
        return false;
      }
    }
    return true;
  }

  /** `_generate_pruned_direction_combinations`: as for rotations; no links means the single empty vector, unpruned. */
  function PrunedDirections(k: nat): seq<seq<Direction>>
  {
    if k == 0 then DirectionVectors(0) else FilterOr(DirectionVectors(k), ViableDirection)
  }

  method GeneratePrunedDirectionCombinations(k: nat) returns (cs: seq<seq<Direction>>)
    ensures cs == PrunedDirections(k)
  {
    var all := DirectionCombinations(k);
    if k == 0 {
      return all;
    }
    DirectionVectorsExact(k);
    var viable := [];
    for m := 0 to |all|
      invariant viable == Filter(all[..m], ViableDirection)
    {
      assert all[..m + 1][..m] == all[..m];
      var ok := IsViableDirectionCombination(all[m]);
      if ok {
        viable := viable + [all[m]];
      }
    }
    assert all[..|all|] == all;
    cs := if viable != [] then viable else all;
  }

  /**
   * As for rotations: never empty, only direction vectors of k links, exactly the viable ones
   * when there are any and all of them otherwise; for k = 0 the empty vector alone.
   */
  lemma {:induction false} PrunedDirectionsSpec(k: nat)
    ensures PrunedDirections(k) != []
    ensures forall c :: c in PrunedDirections(k) ==> |c| == k && c in DirectionVectors(k)
    ensures k > 0 && (exists c :: c in DirectionVectors(k) && ViableDirection(c)) ==>
      forall c :: c in PrunedDirections(k) <==> |c| == k && ViableDirection(c)
    ensures k > 0 && (forall c :: c in DirectionVectors(k) ==> !ViableDirection(c)) ==> PrunedDirections(k) == DirectionVectors(k)
    ensures k == 0 ==> PrunedDirections(k) == [[]]
  {
    var all := DirectionVectors(k);
    DirectionVectorsExact(k);
    assert all[0] in all;
    if k > 0 {
      FilterOrSpec(all, ViableDirection);
    }
  }

  // ---------------------------------------------------------------- index triples

  /** A (seed, rotation vector, direction vector) index triple. */
  type Index = (int, int, int)

  predicate InRange(t: Index, s: int, r: int, d: int)
  {
    0 <= t.0 < s && 0 <= t.1 < r && 0 <= t.2 < d
  }

  /** The innermost loop: `(i, j, k)` for k < c. */
  function Line(i: int, j: int, c: nat): seq<Index>
  {
    seq(c, (k: int) => (i, j, k))
  }

  /** The middle loop stopped before n: the lines j < n. */
  function Plane(i: int, c: nat, n: nat): seq<Index>
  {
    if n == 0 then [] else Plane(i, c, n - 1) + Line(i, n - 1, c)
  }

  /** The outer loop stopped before n: the planes i < n. */
  function Triples(b: nat, c: nat, n: nat): seq<Index>
  {
    if n == 0 then [] else Triples(b, c, n - 1) + Plane(n - 1, c, b)
  }

  /** `[(i, j, k) for i in range(a) for j in range(b) for k in range(c)]`. */
  function AllIndices(a: nat, b: nat, c: nat): seq<Index>
  {
    Triples(b, c, a)
  }

  lemma {:induction false} LineSpec(i: int, j: int, c: nat)
    ensures |Line(i, j, c)| == c && Distinct(Line(i, j, c))
    ensures forall t: Index :: t in Line(i, j, c) <==> t.0 == i && t.1 == j && 0 <= t.2 < c
  {
    var l := Line(i, j, c);
    forall t: Index | t.0 == i && t.1 == j && 0 <= t.2 < c
      ensures t in l
    {
      assert l[t.2] == t;
    }
  }

  lemma {:induction false} PlaneSpec(i: int, c: nat, n: nat)
    ensures Distinct(Plane(i, c, n))
    ensures forall t: Index :: t in Plane(i, c, n) <==> t.0 == i && 0 <= t.1 < n && 0 <= t.2 < c
  {
    if n > 0 {
      PlaneSpec(i, c, n - 1);
      LineSpec(i, n - 1, c);
      DistinctConcat(Plane(i, c, n - 1), Line(i, n - 1, c));
    }
  }

  lemma {:induction false} TriplesSpec(b: nat, c: nat, n: nat)
    ensures Distinct(Triples(b, c, n))
    ensures forall t :: t in Triples(b, c, n) <==> InRange(t, n, b, c)
  {
    if n > 0 {
      TriplesSpec(b, c, n - 1);
      PlaneSpec(n - 1, c, b);
      DistinctConcat(Triples(b, c, n - 1), Plane(n - 1, c, b));
    }
  }

  /** Every in-range triple, each exactly once. */
  lemma {:induction false} AllIndicesSpec(a: nat, b: nat, c: nat)
    ensures Distinct(AllIndices(a, b, c))
    ensures forall t :: t in AllIndices(a, b, c) <==> InRange(t, a, b, c)
  {
    TriplesSpec(b, c, a);
  }

  // ---------------------------------------------------------------- strategic samples

  /** A representative pattern is added when it is below every bound and not present yet. */
  function AddPattern(xs: seq<Index>, p: Index, s: int, r: int, d: int): seq<Index>
  {
    if p.0 < s && p.1 < r && p.2 < d && p !in xs then xs + [p] else xs
  }

  function AddPatterns(xs: seq<Index>, ps: seq<Index>, n: nat, s: int, r: int, d: int): seq<Index>
    requires n <= |ps|
  {
    if n == 0 then xs else AddPattern(AddPatterns(xs, ps, n - 1, s, r, d), ps[n - 1], s, r, d)
  }

  /** `min(1, num_seeds - 1)`. */
  function SecondSeed(s: nat): int
  {
    if s >= 2 then 1 else s - 1
  }

  /** The three representative patterns: first seed unrotated, first seed halfway, second seed. */
  function Patterns(s: nat, r: nat, d: nat): seq<Index>
  {
    [(0, 0, 0), (0, r / 2, d / 2), (SecondSeed(s), 0, d / 4)]
  }

  function SmallOf(n: nat, cap: nat): nat { if n < cap then n else cap }

  /**
   * `_generate_strategic_samples`: the triples of the first three seeds, two rotation vectors
   * and two direction vectors, then the new representative patterns, cut to `count`.
   */
  function StrategicSamples(s: nat, r: nat, d: nat, count: nat): seq<Index>
  {
    Take(AddPatterns(AllIndices(SmallOf(s, 3), SmallOf(r, 2), SmallOf(d, 2)), Patterns(s, r, d), 3, s, r, d), count)
  }

  lemma {:induction false} AddPatternsSpec(xs: seq<Index>, ps: seq<Index>, n: nat, s: int, r: int, d: int)
    requires n <= |ps|
    requires Distinct(xs) && forall t :: t in xs ==> InRange(t, s, r, d)
    requires forall k :: 0 <= k < n ==> ps[k].0 >= 0 && ps[k].1 >= 0 && ps[k].2 >= 0
    ensures var ys := AddPatterns(xs, ps, n, s, r, d); Distinct(ys) && forall t :: t in ys ==> InRange(t, s, r, d)
    ensures forall t :: t in xs ==> t in AddPatterns(xs, ps, n, s, r, d)
  {
    if n > 0 {
      AddPatternsSpec(xs, ps, n - 1, s, r, d);
      var ys := AddPatterns(xs, ps, n - 1, s, r, d);
      if AddPattern(ys, ps[n - 1], s, r, d) != ys {
        DistinctConcat(ys, [ps[n - 1]]);
      }
    }
  }

  /**
   * With at least one seed, the strategic samples are distinct in-range triples, at most
   * `count` of them.
   */
  lemma {:induction false} StrategicSamplesSpec(s: nat, r: nat, d: nat, count: nat)
    requires s >= 1
    ensures var ss := StrategicSamples(s, r, d, count);
      Distinct(ss) && |ss| <= count && forall t :: t in ss ==> InRange(t, s, r, d)
  {
    var base := AllIndices(SmallOf(s, 3), SmallOf(r, 2), SmallOf(d, 2));
    AllIndicesSpec(SmallOf(s, 3), SmallOf(r, 2), SmallOf(d, 2));
    AddPatternsSpec(base, Patterns(s, r, d), 3, s, r, d);
    var all := AddPatterns(base, Patterns(s, r, d), 3, s, r, d);
    if count <= |all| {
      DistinctPrefix(all, count);
      assert forall t :: t in all[..count] ==> t in all;
    }
  }

  /** When no seed index is available the second-seed pattern has index -1, below every bound. */
  lemma {:induction false} NoSeedPattern(r: nat, d: nat)
    requires r >= 1 && d >= 1
    ensures (-1, 0, d / 4) in AddPatterns([], Patterns(0, r, d), 3, 0, r, d)
  {
  }

  method GenerateStrategicSamples(s: nat, r: nat, d: nat, count: nat) returns (res: seq<Index>)
    ensures res == StrategicSamples(s, r, d, count)
  {
    var a, b, c := SmallOf(s, 3), SmallOf(r, 2), SmallOf(d, 2);
    res := [];
    for i := 0 to a
      invariant res == Triples(b, c, i)
    {
      res := AppendPlane(res, i, b, c);
    }
    var patterns := Patterns(s, r, d);
    for q := 0 to 3
      invariant res == AddPatterns(AllIndices(a, b, c), patterns, q, s, r, d)
    {
      var p := patterns[q];
      if p.0 < s && p.1 < r && p.2 < d && p !in res {
        res := res + [p];
      }
    }
    res := Take(res, count);
  }

  /** The middle loop `for rot_idx in range(...)`. */
  method AppendPlane(res: seq<Index>, i: int, b: nat, c: nat) returns (out: seq<Index>)
    ensures out == res + Plane(i, c, b)
  {
    out := res;
    for j := 0 to b
      invariant out == res + Plane(i, c, j)
    {
      var line := [];
      for k := 0 to c
        invariant line == Line(i, j, c)[..k]
      {
        line := line + [(i, j, k)];
      }
      assert line == Line(i, j, c);
      out := out + line;
    }
  }

  // ---------------------------------------------------------------- random samples

  /** `randint(0, n - 1)` made from a raw draw. */
  function Below(raw: nat, n: nat): (v: nat)
    requires n > 0
    ensures v < n
  {
    raw % n
  }

  /** The candidate an attempt draws: `randint(0, n - 1)` for each index, from raw draws. */
  function Candidate(raw: (nat, nat, nat), s: nat, r: nat, d: nat): (t: Index)
    requires s > 0 && r > 0 && d > 0
    ensures InRange(t, s, r, d)
  {
    (Below(raw.0, s), Below(raw.1, r), Below(raw.2, d))
  }

  /**
   * `_generate_random_samples`: at most `10 * count` draws, keeping each new triple that is
   * neither excluded nor drawn before, until `count` are kept. `draw(k)` is the raw draw of
   * attempt k.
   */
  method GenerateRandomSamples(s: nat, r: nat, d: nat, count: nat, exclude: set<Index>, draw: nat -> (nat, nat, nat))
    returns (res: seq<Index>)
    requires count > 0 ==> s > 0 && r > 0 && d > 0
    ensures Distinct(res) && |res| <= count
    ensures forall t :: t in res ==> InRange(t, s, r, d) && t !in exclude
    ensures forall t :: t in res ==> exists k :: 0 <= k < 10 * count && t == Candidate(draw(k), s, r, d)
  {
    res := [];
    var seen := exclude;
    var attempts := 0;
    while |res| < count && attempts < 10 * count
      invariant attempts <= 10 * count && |res| <= count
      invariant forall t :: t in seen <==> t in exclude || t in res
      invariant Distinct(res)
      invariant forall t :: t in res ==> InRange(t, s, r, d) && t !in exclude
      invariant forall t :: t in res ==> exists k :: 0 <= k < attempts && t == Candidate(draw(k), s, r, d)
      decreases 10 * count - attempts
    {
      var candidate := Candidate(draw(attempts), s, r, d);
      if candidate !in seen && candidate !in res {
        DistinctConcat(res, [candidate]);
        res := res + [candidate];
        seen := seen + {candidate};
      }
      attempts := attempts + 1;
    }
  }

  // ---------------------------------------------------------------- shuffling

  function Swapped<T>(xs: seq<T>, i: nat, j: nat): (ys: seq<T>)
    requires i < |xs| && j < |xs|
    ensures |ys| == |xs| && ys[i] == xs[j] && ys[j] == xs[i]
    ensures forall k :: 0 <= k < |xs| && k != i && k != j ==> ys[k] == xs[k]
  {
    xs[i := xs[j]][j := xs[i]]
  }

  /** The Fisher-Yates steps i, i - 1, ..., 1: step i swaps entry i with entry `randint(0, i)`, drawn as `swap(i)`. */
  function ShuffledDown<T>(xs: seq<T>, swap: nat -> nat, i: nat): (ys: seq<T>)
    requires i < |xs| || i == 0
    ensures |ys| == |xs|
    decreases i
  {
    if i == 0 then xs else ShuffledDown(Swapped(xs, i, Below(swap(i), i + 1)), swap, i - 1)
  }

  /** Every step of the shuffle is a permutation, so all of them together are one. */
  lemma {:induction false} ShuffledDownPermutes<T>(xs: seq<T>, swap: nat -> nat, i: nat)
    requires i < |xs| || i == 0
    ensures multiset(ShuffledDown(xs, swap, i)) == multiset(xs)
    decreases i
  {
    if i != 0 {
      var j := Below(swap(i), i + 1);
      ShuffledDownPermutes(Swapped(xs, i, j), swap, i - 1);
      assert multiset(Swapped(xs, i, j)) == multiset(xs) by {
        assert xs[i := xs[j]][j := xs[i]] == Swapped(xs, i, j);
      }
    }
  }

  /** `random.shuffle`, with `swap(i)` the draw behind step i. */
  function Shuffled<T>(xs: seq<T>, swap: nat -> nat): seq<T>
  {
    if |xs| <= 1 then xs else ShuffledDown(xs, swap, |xs| - 1)
  }

  /** Shuffling only reorders: same elements, same multiplicities, and no repetition appears. */
  lemma {:induction false} ShuffledPermutes<T>(xs: seq<T>, swap: nat -> nat)
    ensures multiset(Shuffled(xs, swap)) == multiset(xs)
    ensures Distinct(xs) ==> Distinct(Shuffled(xs, swap))
    ensures forall v :: v in Shuffled(xs, swap) <==> v in xs
  {
    var ys := Shuffled(xs, swap);
    if |xs| > 1 {
      ShuffledDownPermutes(xs, swap, |xs| - 1);
    }
    if Distinct(xs) {
      DistinctPermutation(xs, ys);
    }
    forall v
      ensures v in ys <==> v in xs
    {
      assert v in ys <==> v in multiset(ys);
      assert v in xs <==> v in multiset(xs);
    }
  }

  method Shuffle<T>(xs: seq<T>, swap: nat -> nat) returns (ys: seq<T>)
    ensures ys == Shuffled(xs, swap)
  {
    ys := xs;
    if |xs| <= 1 {
      return;
    }
    var i: nat := |xs| - 1;
    while i > 0
      invariant i < |ys| == |xs|
      invariant ShuffledDown(ys, swap, i) == Shuffled(xs, swap)
      decreases i
    {
      var j := Below(swap(i), i + 1);
      ys := Swapped(ys, i, j);
      i := i - 1;
    }
  }

  // ---------------------------------------------------------------- adaptive sampling

  lemma {:induction false} NonZeroFactors(s: nat, r: nat, d: nat)
    requires s * r * d > 0
    ensures s > 0 && r > 0 && d > 0
  {
  }

  /**
   * `_adaptive_sampling`: every triple up to 2000 combinations; above, at most 500 distinct
   * in-range triples that include every strategic sample, in shuffled order.
   */
  method AdaptiveSampling(s: nat, r: nat, d: nat, draw: nat -> (nat, nat, nat), swap: nat -> nat) returns (indices: seq<Index>)
    ensures s * r * d <= CombinationThreshold ==> indices == AllIndices(s, r, d)
    ensures Distinct(indices) && forall t :: t in indices ==> InRange(t, s, r, d)
    ensures s * r * d > CombinationThreshold ==>
      |indices| <= TargetSampleSize && forall t :: t in StrategicSamples(s, r, d, QualitySamples) ==> t in indices
  {
    var total := s * r * d;
    if total <= CombinationThreshold {
      AllIndicesSpec(s, r, d);
      return AllIndices(s, r, d);
    }
    NonZeroFactors(s, r, d);
    var sample := if TargetSampleSize <= total then TargetSampleSize else total;
    var quality := Trunc(sample as real * 0.3);
    assert quality == QualitySamples;
    var strategic := GenerateStrategicSamples(s, r, d, quality);
    StrategicSamplesSpec(s, r, d, quality);
    var random := GenerateRandomSamples(s, r, d, sample - |strategic|, (set t | t in strategic), draw);
    var combined := strategic + random;
    DistinctConcat(strategic, random);
    var shuffled := Shuffle(combined, swap);
    ShuffledPermutes(combined, swap);
    indices := Take(shuffled, sample);
    assert indices == shuffled;
  }

  // ---------------------------------------------------------------- placing from a seed

  /** The first rectangle of a seeded chain: process 0 where the seed says, turned as it says. */
  function SeedFirst(mains: seq<Process>, seed: Seed): Rect
    requires mains != []
  {
    CreateRect(mains[0], seed.x, seed.y, seed.rotated)
  }

  /**
   * `_place_main_processes_with_seed`: the chain from the seed, process i placed against
   * process i - 1 with `rotations[i - 1]` and `directions[i - 1]`, checked and centred.
   */
  function SeededLayout(site: Site, mains: seq<Process>, seed: Seed, rots: seq<bool>, dirs: seq<Direction>): Option<seq<Rect>>
    requires mains != [] && |rots| >= |mains| - 1 && |dirs| >= |mains| - 1
  {
    Finish(site, Chain(site, SeedFirst(mains, seed), mains[1..], rots, dirs, |mains| - 1))
  }

  method PlaceMainProcessesWithSeed(site: Site, mains: seq<Process>, seed: Seed, rots: seq<bool>, dirs: seq<Direction>)
    returns (r: Option<seq<Rect>>)
    requires mains != [] && |rots| >= |mains| - 1 && |dirs| >= |mains| - 1
    ensures r == SeededLayout(site, mains, seed, rots, dirs)
  {
    r := PlaceChain(site, SeedFirst(mains, seed), mains[1..], rots, dirs);
  }

  /** What every main layout the improved generator returns looks like. */
  predicate MainLayoutShape(site: Site, mains: seq<Process>, l: seq<Rect>)
  {
    |l| == |mains| && PairwiseDisjoint(l) &&
    Bounds(l).x == FloorDiv(site.width - Bounds(l).w, 2.0) && Bounds(l).y == FloorDiv(site.height - Bounds(l).h, 2.0)
  }

  // ---------------------------------------------------------------- the improved generation

  /** The rotation vectors tried for processes 1 .. n - 1. */
  function RotationsFor(site: Site, mains: seq<Process>): seq<seq<bool>>
    requires mains != []
  {
    if |mains| > 1 then PrunedRotations(site, mains[1..]) else [[]]
  }

  /** The direction vectors tried for the n - 1 links. */
  function DirectionsFor(mains: seq<Process>): seq<seq<Direction>>
    requires mains != []
  {
    if |mains| > 1 then PrunedDirections(|mains| - 1) else [[]]
  }

  /** The rotation list is never empty and holds vectors of n - 1 entries. */
  lemma {:induction false} RotationsForShape(site: Site, mains: seq<Process>)
    requires mains != []
    ensures RotationsFor(site, mains) != [] && forall c :: c in RotationsFor(site, mains) ==> |c| == |mains| - 1
  {
    if |mains| > 1 {
      PrunedRotationsSpec(site, mains[1..]);
    }
  }

  /** The direction list is never empty and holds vectors of n - 1 entries. */
  lemma {:induction false} DirectionsForShape(mains: seq<Process>)
    requires mains != []
    ensures DirectionsFor(mains) != [] && forall c :: c in DirectionsFor(mains) ==> |c| == |mains| - 1
  {
    if |mains| > 1 {
      PrunedDirectionsSpec(|mains| - 1);
    }
  }

  /** The layout one index triple contributes: the seeded placement, if it succeeds. */
  function PlacedAt(site: Site, mains: seq<Process>, seeds: seq<Seed>, rcs: seq<seq<bool>>, dcs: seq<seq<Direction>>): Index -> seq<seq<Rect>>
  {
    (t: Index) =>
      if mains != [] && InRange(t, |seeds|, |rcs|, |dcs|) && |rcs[t.1]| >= |mains| - 1 && |dcs[t.2]| >= |mains| - 1 then
        match SeededLayout(site, mains, seeds[t.0], rcs[t.1], dcs[t.2])
        case Some(l) => [l]
        case None => []
      else []
  }

  /** Every layout an index triple contributes has the main-layout shape. */
  lemma {:induction false} PlacedAtShape(site: Site, mains: seq<Process>, seeds: seq<Seed>, rcs: seq<seq<bool>>, dcs: seq<seq<Direction>>, t: Index, l: seq<Rect>)
    requires l in PlacedAt(site, mains, seeds, rcs, dcs)(t)
    ensures MainLayoutShape(site, mains, l)
  {
    FinishShape(site, SeedFirst(mains, seeds[t.0]), mains[1..], rcs[t.1], dcs[t.2], |mains| - 1, l);
  }

  /** One iteration of the loop over the sampled triples. */
  method TrySeeded(site: Site, mains: seq<Process>, seeds: seq<Seed>, rcs: seq<seq<bool>>, dcs: seq<seq<Direction>>, t: Index)
    returns (placed: seq<seq<Rect>>)
    requires mains != [] && InRange(t, |seeds|, |rcs|, |dcs|)
    requires forall c :: c in rcs ==> |c| == |mains| - 1
    requires forall c :: c in dcs ==> |c| == |mains| - 1
    ensures placed == PlacedAt(site, mains, seeds, rcs, dcs)(t)
    ensures forall l :: l in placed ==> MainLayoutShape(site, mains, l)
  {
    assert rcs[t.1] in rcs && dcs[t.2] in dcs;
    var layout := PlaceMainProcessesWithSeed(site, mains, seeds[t.0], rcs[t.1], dcs[t.2]);
    if layout.Some? {
      FinishShape(site, SeedFirst(mains, seeds[t.0]), mains[1..], rcs[t.1], dcs[t.2], |mains| - 1, layout.value);
      placed := [layout.value];
    } else {
      placed := [];
    }
  }

  /**
   * Improved `generate_main_layout_combinations`: seeds for process 0, pruned vectors for the
   * rest, then `PlaceSampled`. Every returned layout has the main-layout shape.
   */
  method GenerateMainLayoutCombinations(site: Site, mains: seq<Process>, draw: nat -> (nat, nat, nat), swap: nat -> nat)
    returns (layouts: seq<seq<Rect>>)
    requires mains != [] ==> HasExtent(site)
    ensures forall l :: l in layouts ==> MainLayoutShape(site, mains, l)
    ensures mains == [] ==> layouts == []
  {
    if mains == [] {
      return [];
    }
    var seeds := GenerateSeedStrategies(site, mains[0]);
    var rcs, dcs;
    if |mains| > 1 {
      rcs := GeneratePrunedRotationCombinations(site, mains[1..]);
      dcs := GeneratePrunedDirectionCombinations(|mains| - 1);
    } else {
      rcs, dcs := [[]], [[]];
    }
    RotationsForShape(site, mains);
    DirectionsForShape(mains);
    layouts := PlaceSampled(site, mains, seeds, rcs, dcs, draw, swap);
  }

  /**
   * The sampled index triples and the seeded placement of each: up to 2000 combinations every
   * triple in loop order, above that the placements of the sample.
   */
  method PlaceSampled(site: Site, mains: seq<Process>, seeds: seq<Seed>, rcs: seq<seq<bool>>, dcs: seq<seq<Direction>>,
                      draw: nat -> (nat, nat, nat), swap: nat -> nat) returns (layouts: seq<seq<Rect>>)
    requires mains != []
    requires forall c :: c in rcs ==> |c| == |mains| - 1
    requires forall c :: c in dcs ==> |c| == |mains| - 1
    ensures forall l :: l in layouts ==> MainLayoutShape(site, mains, l)
    ensures var all := AllIndices(|seeds|, |rcs|, |dcs|);
      |seeds| * |rcs| * |dcs| <= CombinationThreshold ==> layouts == Each(all, |all|, PlacedAt(site, mains, seeds, rcs, dcs))
  {
    var indices := AdaptiveSampling(|seeds|, |rcs|, |dcs|, draw, swap);
    layouts := PlaceIndices(site, mains, seeds, rcs, dcs, indices);
  }

  /** The loop over the sampled index triples. */
  method PlaceIndices(site: Site, mains: seq<Process>, seeds: seq<Seed>, rcs: seq<seq<bool>>, dcs: seq<seq<Direction>>, indices: seq<Index>)
    returns (layouts: seq<seq<Rect>>)
    requires mains != []
    requires forall c :: c in rcs ==> |c| == |mains| - 1
    requires forall c :: c in dcs ==> |c| == |mains| - 1
    requires forall t :: t in indices ==> InRange(t, |seeds|, |rcs|, |dcs|)
    ensures forall l :: l in layouts ==> MainLayoutShape(site, mains, l)
    ensures layouts == Each(indices, |indices|, PlacedAt(site, mains, seeds, rcs, dcs))
  {
    layouts := [];
    for q := 0 to |indices|
      invariant layouts == Each(indices, q, PlacedAt(site, mains, seeds, rcs, dcs))
      invariant forall l :: l in layouts ==> MainLayoutShape(site, mains, l)
    {
      assert indices[q] in indices;
      var placed := TrySeeded(site, mains, seeds, rcs, dcs, indices[q]);
      layouts := layouts + placed;
    }
  }

  // ---------------------------------------------------------------- sub processes

  /**
   * The improved `place_sub_processes_optimally`: the baseline's greedy placement in rating
   * order, with candidates on the coarser grid of 25 m cells, every second one. Its chooser
   * only picks valid placements (`ChooserValid`), so `PlaceSubsGrows` and `PlaceSubsSound` apply.
   */
  method PlaceSubProcessesOptimally(site: Site, mainLayout: seq<Rect>, subs: seq<Process>, aw: Weights) returns (layout: seq<Rect>)
    ensures layout == SubLayout(site, aw, ImprovedGrid, mainLayout, subs)
  {
    layout := LayoutGenerator.PlaceSubProcessesOptimally(site, mainLayout, subs, aw, ImprovedGrid);
  }

  /** The coarse grid steps 50 m: every grid candidate sits at a non-negative multiple of 50 on both axes. */
  lemma {:induction false} ImprovedGridSpacing(site: Site, sub: Process, rotated: bool, c: Rect)
    requires c in GridFor(site, sub, ImprovedGrid, rotated)
    ensures c.x >= 0.0 && c.x / 50.0 == (c.x / 50.0).Floor as real
    ensures c.y >= 0.0 && c.y / 50.0 == (c.y / 50.0).Floor as real
  {
    var w := if rotated then sub.h else sub.w;
    var h := if rotated then sub.w else sub.h;
    var xs := GridIndices(GridSteps(site.width, w, ImprovedGrid), ImprovedGrid.Stride());
    var ys := GridIndices(GridSteps(site.height, h, ImprovedGrid), ImprovedGrid.Stride());
    var f := GridAt(sub, rotated, ImprovedGrid);
    var a, b := ProductWitness(xs, ys, f, c);
    var i, j := xs[a], ys[b];
    assert i == a * 2 && j == b * 2;
    GridPoint(sub, rotated, ImprovedGrid, i, j, c);
    // grid index 2a at 25 m is a metres times 50, whose quotient by 50 is the whole number a
    assert (a * 2) as real == 2.0 * a as real && (b * 2) as real == 2.0 * b as real;
    assert c.x / 50.0 == a as real && c.y / 50.0 == b as real;
    assert (a as real).Floor == a && (b as real).Floor == b;
  }
}
