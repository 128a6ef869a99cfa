/**
 * `ConstraintHandler`: the checks a layout must pass. Processes must not overlap, must lie inside
 * the site, must stay clear of the fixed zones and must keep the separations their hazards
 * demand; the main processes must be numbered 1..n. Each check reports a verdict and the
 * violations it found, in the order its loops visit them.
 */
module ConstraintHandler {
  import opened Wrappers
  import opened Collect
  import opened Sorting
  import opened Geometry
  import opened Numbering

  // ---------------------------------------------------------------- hazards

  const Fire: string := "\U{D654}\U{C7AC}"
  const Explosion: string := "\U{D3ED}\U{BC1C}"
  const Toxic: string := "\U{B3C5}\U{C131}"
  const HighPressure: string := "\U{ACE0}\U{C555}"
  const Radioactive: string := "\U{BC29}\U{C0AC}\U{B2A5}"

  /** `hazard_distance_requirements`: minimum edge distance per pair of hazard kinds. */
  const HazardTable: map<(string, string), real> := map[
    (Fire, Explosion) := 10.0, (Fire, Toxic) := 8.0, (Explosion, Toxic) := 12.0,
    (Fire, Fire) := 6.0, (Explosion, Explosion) := 15.0, (Toxic, Toxic) := 5.0,
    (HighPressure, Fire) := 10.0, (HighPressure, Explosion) := 12.0,
    (Radioactive, Fire) := 20.0, (Radioactive, Explosion) := 25.0, (Radioactive, Toxic) := 15.0]

  /** `hazard_distance_requirements.get((a, b))`, a missing entry read as 0 (both are falsy under `or`). */
  function TableEntry(a: string, b: string): real
  {
    if (a, b) in HazardTable then HazardTable[(a, b)] else 0.0
  }

  /**
   * `_get_required_hazard_distance`: the entry for (h1, h2), else the one for (h2, h1), else 0.
   * Every listed distance is at least 5.
   */
  function RequiredHazardDistance(h1: string, h2: string): (d: real)
    ensures (h1, h2) in HazardTable ==> d == HazardTable[(h1, h2)]
    ensures (h1, h2) !in HazardTable && (h2, h1) in HazardTable ==> d == HazardTable[(h2, h1)]
    ensures (h1, h2) !in HazardTable && (h2, h1) !in HazardTable ==> d == 0.0
    ensures d == 0.0 || d >= 5.0
  {
    if TableEntry(h1, h2) != 0.0 then TableEntry(h1, h2)
    else if TableEntry(h2, h1) != 0.0 then TableEntry(h2, h1)
    else 0.0
  }

  /** No pair of distinct hazards is listed in both orders. */
  lemma {:induction false} HazardTableOneWay(a: string, b: string)
    requires (a, b) in HazardTable && (b, a) in HazardTable
    ensures a == b
  {
    assert Fire != Explosion && Fire != Toxic && Fire != HighPressure && Fire != Radioactive;
    assert Explosion != Toxic && Explosion != HighPressure && Explosion != Radioactive;
    assert Toxic != HighPressure && Toxic != Radioactive && HighPressure != Radioactive;
  }

  /** The required distance does not depend on which of the two processes is named first. */
  lemma {:induction false} RequiredHazardDistanceSymmetric(h1: string, h2: string)
    ensures RequiredHazardDistance(h1, h2) == RequiredHazardDistance(h2, h1)
  {
    if (h1, h2) in HazardTable && (h2, h1) in HazardTable {
      HazardTableOneWay(h1, h2);
    }
  }

  // ---------------------------------------------------------------- the handler and its reports

  /**
   * The handler's configuration: the site, its fixed zones and the hazard tags of process ids
   * (`fixed_zones or []` and `hazard_factors or {}` make an absent argument empty).
   */
  datatype Handler = Handler(width: real, height: real, zones: seq<Rect>, hazards: map<string, seq<string>>)

  /** `hazard_factors.get(id, [])`. */
  function HazardsOf(h: Handler, id: string): seq<string>
  {
    if id in h.hazards then h.hazards[id] else []
  }

  /** A side of the site a rectangle crosses, with the coordinate that crosses it. */
  datatype Side = LeftEdge(x: real) | TopEdge(y: real) | RightEdge(right: real) | BottomEdge(bottom: real)

  /** One violation, carrying what the source's message and detail record report. */
  datatype Violation =
    | EmptyLayout
    | Overlap(id1: string, id2: string, area: real)
    | OutsideSite(id: string, sides: seq<Side>)
    | InZone(id: string, zoneId: string, zoneName: string, area: real)
    | HazardTooClose(id1: string, hazard1: string, id2: string, hazard2: string, actual: real, required: real)
    | NotConsecutive(found: seq<int>, expected: seq<int>)
    | DuplicateNumbers(numbers: seq<int>)
    | TooClose(id1: string, id2: string, actual: real, required: real)

  datatype Warning = NoMainProcesses

  /** The result dict of one `check_*` method. */
  datatype Check = Check(valid: bool, violations: seq<Violation>, warnings: seq<Warning>)

  // ---------------------------------------------------------------- check_no_overlaps

  /** What the overlap check records for the pair (a, b). */
  function OverlapEntry(a: Rect, b: Rect): seq<Violation>
  {
    if Overlaps(a, b) then [Overlap(a.id, b.id, OverlapArea(a, b))] else []
  }

  function OverlapFound(): (Rect, Rect) -> seq<Violation>
  {
    (a: Rect, b: Rect) => OverlapEntry(a, b)
  }

  /** `check_no_overlaps`: one violation per overlapping pair i < j, in loop order. */
  method CheckNoOverlaps(layout: seq<Rect>) returns (c: Check)
    ensures c.violations == Pairs(layout, OverlapFound()) && c.warnings == []
    ensures c.valid <==> PairwiseDisjoint(layout)
    ensures c.valid <==> c.violations == []
  {
    var valid := true;
    var violations := [];
    for i := 0 to |layout|
      invariant violations == Rows(layout, i, OverlapFound())
      invariant valid <==> violations == []
    {
      var row := OverlapRow(layout, i);
      if row != [] {
        valid := false;
      }
      violations := violations + row;
    }
    OverlapsReported(layout);
    c := Check(valid, violations, []);
  }

  /** The inner loop `for rect2 in layout[i + 1:]` of the overlap check. */
  method OverlapRow(layout: seq<Rect>, i: nat) returns (row: seq<Violation>)
    requires i < |layout|
    ensures row == RowTo(layout, i, |layout|, OverlapFound())
  {
    row := [];
    for j := i + 1 to |layout|
      invariant row == RowTo(layout, i, j, OverlapFound())
    {
      var a, b := layout[i], layout[j];
      if Overlaps(a, b) {
        row := row + [Overlap(a.id, b.id, OverlapArea(a, b))];
      }
    }
  }

  /** The overlap check reports nothing iff no two rectangles overlap. */
  lemma {:induction false} OverlapsReported(layout: seq<Rect>)
    ensures Pairs(layout, OverlapFound()) == [] <==> PairwiseDisjoint(layout)
  {
    PairsEmpty(layout, OverlapFound());
  }

  /** The overlap report lists exactly the overlapping pairs, each with its overlap area. */
  lemma {:induction false} OverlapViolationsExact(layout: seq<Rect>, v: Violation)
    ensures v in Pairs(layout, OverlapFound()) <==>
      exists a, b :: 0 <= a < b < |layout| && Overlaps(layout[a], layout[b]) &&
        v == Overlap(layout[a].id, layout[b].id, OverlapArea(layout[a], layout[b]))
  {
    PairsMember(layout, OverlapFound(), v);
  }

  // ---------------------------------------------------------------- check_within_boundaries

  /** The sides of the site r crosses, in the order left, top, right, bottom. */
  function CrossedSides(h: Handler, r: Rect): (sides: seq<Side>)
    ensures sides == [] <==> InBounds(r, h.width, h.height)
  {
    (if r.x < 0.0 then [LeftEdge(r.x)] else []) +
    (if r.y < 0.0 then [TopEdge(r.y)] else []) +
    (if Right(r) > h.width then [RightEdge(Right(r))] else []) +
    (if Bottom(r) > h.height then [BottomEdge(Bottom(r))] else [])
  }

  /** What the boundary check records for r. */
  function OutsideEntry(h: Handler, r: Rect): seq<Violation>
  {
    var sides := CrossedSides(h, r);
    if sides == [] then [] else [OutsideSite(r.id, sides)]
  }

  function OutsideFound(h: Handler): Rect -> seq<Violation>
  {
    (r: Rect) => OutsideEntry(h, r)
  }

  /** Every rectangle lies in [0, W] x [0, H]. */
  predicate WithinSite(h: Handler, layout: seq<Rect>)
  {
    forall k :: 0 <= k < |layout| ==> InBounds(layout[k], h.width, h.height)
  }

  /** `check_within_boundaries`: one violation per rectangle crossing a side, listing the sides. */
  method CheckWithinBoundaries(h: Handler, layout: seq<Rect>) returns (c: Check)
    ensures c.valid <==> c.violations == []
    ensures c.valid <==> WithinSite(h, layout)
    ensures c.violations == Each(layout, |layout|, OutsideFound(h)) && c.warnings == []
  {
    var valid := true;
    var violations := [];
    for k := 0 to |layout|
      invariant violations == Each(layout, k, OutsideFound(h))
      invariant valid <==> violations == []
    {
      var r := layout[k];
      var sides := CrossedSides(h, r);
      if sides != [] {
        valid := false;
        violations := violations + [OutsideSite(r.id, sides)];
      }
    }
    OutsideReported(h, layout);
    c := Check(valid, violations, []);
  }

  /** The boundary check reports nothing iff every rectangle lies inside the site. */
  lemma {:induction false} OutsideReported(h: Handler, layout: seq<Rect>)
    ensures Each(layout, |layout|, OutsideFound(h)) == [] <==> WithinSite(h, layout)
  {
    EachEmpty(layout, |layout|, OutsideFound(h));
  }

  // ---------------------------------------------------------------- check_no_fixed_zone_violations

  /** `fixed_zone.get('name', f"고정구역_{id}")`: the zone's own name, present even when empty, or one made from its id. */
  function ZoneName(z: Rect): string
  {
    if z.name.Some? then z.name.value else "\U{ACE0}\U{C815}\U{AD6C}\U{C5ED}_" + z.id
  }

  /** What the zone check records for rectangle r and zone z. */
  function ZoneEntry(r: Rect, z: Rect): seq<Violation>
  {
    if Overlaps(r, z) then [InZone(r.id, z.id, ZoneName(z), OverlapArea(r, z))] else []
  }

  function ZoneFound(): (Rect, Rect) -> seq<Violation>
  {
    (r: Rect, z: Rect) => ZoneEntry(r, z)
  }

  /** No rectangle overlaps a fixed zone. */
  predicate ClearOfZones(h: Handler, layout: seq<Rect>)
  {
    forall k, z :: 0 <= k < |layout| && 0 <= z < |h.zones| ==> !Overlaps(layout[k], h.zones[z])
  }

  /** `check_no_fixed_zone_violations`: one violation per (rectangle, zone) pair that overlaps. */
  method CheckNoFixedZoneViolations(h: Handler, layout: seq<Rect>) returns (c: Check)
    ensures c.violations == Product(layout, h.zones, ZoneFound()) && c.warnings == []
    ensures c.valid <==> ClearOfZones(h, layout)
    ensures c.valid <==> c.violations == []
  {
    var f := ZoneFound();
    var valid := true;
    var violations := [];
    for i := 0 to |layout|
      invariant violations == ProductRows(layout, h.zones, i, f)
      invariant valid <==> violations == []
    {
      for j := 0 to |h.zones|
        invariant violations == ProductRows(layout, h.zones, i, f) + Across(layout[i], h.zones, j, f)
        invariant valid <==> violations == []
      {
        var r, z := layout[i], h.zones[j];
        if Overlaps(r, z) {
          valid := false;
          violations := violations + [InZone(r.id, z.id, ZoneName(z), OverlapArea(r, z))];
        }
      }
    }
    ProductEmpty(layout, h.zones, f);
    c := Check(valid, violations, []);
  }

  // ---------------------------------------------------------------- check_hazard_distances

  function TagPairFound(a: Rect, b: Rect): (string, string) -> seq<Violation>
  {
    (t1: string, t2: string) =>
      var required := RequiredHazardDistance(t1, t2);
      if required > 0.0 && EdgeDistance(a, b) < required
      then [HazardTooClose(a.id, t1, b.id, t2, EdgeDistance(a, b), required)]
      else []
  }

  /** The violations of one pair: every (tag of a, tag of b) combination closer than required. */
  function HazardEntries(h: Handler, a: Rect, b: Rect): seq<Violation>
  {
    if HazardsOf(h, a.id) != [] && HazardsOf(h, b.id) != []
    then Product(HazardsOf(h, a.id), HazardsOf(h, b.id), TagPairFound(a, b))
    else []
  }

  function HazardFound(h: Handler): (Rect, Rect) -> seq<Violation>
  {
    (a: Rect, b: Rect) => HazardEntries(h, a, b)
  }

  /** Each hazard combination of a and b that has a requirement is kept apart by at least that. */
  predicate HazardSeparated(h: Handler, a: Rect, b: Rect)
  {
    var t1, t2 := HazardsOf(h, a.id), HazardsOf(h, b.id);
    forall i, j :: 0 <= i < |t1| && 0 <= j < |t2| && RequiredHazardDistance(t1[i], t2[j]) > 0.0 ==>
      EdgeDistance(a, b) >= RequiredHazardDistance(t1[i], t2[j])
  }

  predicate HazardSafe(h: Handler, layout: seq<Rect>)
  {
    forall a, b :: 0 <= a < b < |layout| ==> HazardSeparated(h, layout[a], layout[b])
  }

  /** The two inner loops over the tags of one pair. */
  method HazardPairViolations(h: Handler, a: Rect, b: Rect) returns (vs: seq<Violation>)
    ensures vs == HazardEntries(h, a, b)
  {
    var hz1, hz2 := HazardsOf(h, a.id), HazardsOf(h, b.id);
    vs := [];
    if hz1 != [] && hz2 != [] {
      var f := TagPairFound(a, b);
      for i := 0 to |hz1|
        invariant vs == ProductRows(hz1, hz2, i, f)
      {
        for j := 0 to |hz2|
          invariant vs == ProductRows(hz1, hz2, i, f) + Across(hz1[i], hz2, j, f)
        {
          var required := RequiredHazardDistance(hz1[i], hz2[j]);
          if required > 0.0 {
            var actual := EdgeDistance(a, b);
            if actual < required {
              vs := vs + [HazardTooClose(a.id, hz1[i], b.id, hz2[j], actual, required)];
            }
          }
        }
      }
    }
  }

  /** A pair reports nothing iff it keeps every separation its tags require. */
  lemma {:induction false} HazardPairClear(h: Handler, a: Rect, b: Rect)
    ensures HazardFound(h)(a, b) == [] <==> HazardSeparated(h, a, b)
  {
    var t1, t2 := HazardsOf(h, a.id), HazardsOf(h, b.id);
    if t1 != [] && t2 != [] {
      ProductEmpty(t1, t2, TagPairFound(a, b));
    }
  }

  /** `check_hazard_distances`: the tag violations of every pair i < j, in loop order. */
  method CheckHazardDistances(h: Handler, layout: seq<Rect>) returns (c: Check)
    ensures c.violations == Pairs(layout, HazardFound(h)) && c.warnings == []
    ensures c.valid <==> HazardSafe(h, layout)
    ensures c.valid <==> c.violations == []
  {
    var valid := true;
    var violations := [];
    for i := 0 to |layout|
      invariant violations == Rows(layout, i, HazardFound(h))
      invariant valid <==> violations == []
    {
      var row := HazardRow(h, layout, i);
      if row != [] {
        valid := false;
      }
      violations := violations + row;
    }
    HazardsReported(h, layout);
    c := Check(valid, violations, []);
  }

  /** The inner loop `for rect2 in layout[i + 1:]` of the hazard check. */
  method HazardRow(h: Handler, layout: seq<Rect>, i: nat) returns (row: seq<Violation>)
    requires i < |layout|
    ensures row == RowTo(layout, i, |layout|, HazardFound(h))
  {
    row := [];
    for j := i + 1 to |layout|
      invariant row == RowTo(layout, i, j, HazardFound(h))
    {
      var vs := HazardPairViolations(h, layout[i], layout[j]);
      row := row + vs;
    }
  }

  /** The hazard report is empty iff every pair keeps its separations. */
  lemma {:induction false} HazardsReported(h: Handler, layout: seq<Rect>)
    ensures Pairs(layout, HazardFound(h)) == [] <==> HazardSafe(h, layout)
  {
    PairsEmpty(layout, HazardFound(h));
    forall a, b | 0 <= a < b < |layout|
      ensures HazardFound(h)(layout[a], layout[b]) == [] <==> HazardSeparated(h, layout[a], layout[b])
    {
      HazardPairClear(h, layout[a], layout[b]);
    }
  }

  /**
   * A hazard violation is recorded for a pair exactly when both carry tags, the two tags have a
   * positive requirement and the edge distance falls short of it; untagged pairs never violate.
   */
  lemma {:induction false} HazardViolationExact(h: Handler, a: Rect, b: Rect, v: Violation)
    ensures v in HazardFound(h)(a, b) <==>
      exists i, j :: 0 <= i < |HazardsOf(h, a.id)| && 0 <= j < |HazardsOf(h, b.id)| &&
        RequiredHazardDistance(HazardsOf(h, a.id)[i], HazardsOf(h, b.id)[j]) > 0.0 &&
        EdgeDistance(a, b) < RequiredHazardDistance(HazardsOf(h, a.id)[i], HazardsOf(h, b.id)[j]) &&
        v == HazardTooClose(a.id, HazardsOf(h, a.id)[i], b.id, HazardsOf(h, b.id)[j], EdgeDistance(a, b),
                            RequiredHazardDistance(HazardsOf(h, a.id)[i], HazardsOf(h, b.id)[j]))
  {
    var t1, t2 := HazardsOf(h, a.id), HazardsOf(h, b.id);
    if t1 != [] && t2 != [] {
      ProductMember(t1, t2, TagPairFound(a, b), v);
    }
  }

  // ---------------------------------------------------------------- check_main_process_sequence

  /** A main process carrying a `main_process_sequence`. */
  predicate NumberedMain(r: Rect)
  {
    r.kind == Main && r.sequence.Some?
  }

  function SequenceNumber(r: Rect): int
  {
    if r.sequence.Some? then r.sequence.value else 0
  }

  function NumberedMains(layout: seq<Rect>): seq<Rect>
  {
    Filter(layout, NumberedMain)
  }

  /** `actual_sequence`: the numbers of the numbered mains after sorting them by number. */
  function ActualSequence(layout: seq<Rect>): seq<int>
  {
    Numbers(SortDesc(NumberedMains(layout), ByNumber(SequenceNumber)), SequenceNumber)
  }

  /** The numbering rule: sorted, the main processes' numbers are exactly 1..n. */
  predicate NumberingHolds(layout: seq<Rect>)
  {
    SortedAsc(Numbers(NumberedMains(layout), SequenceNumber)) == Iota(|NumberedMains(layout)|)
  }

  /** `min(xs)`. */
  function MinOf(xs: seq<int>): (m: int)
    requires xs != []
    ensures m in xs && forall k :: 0 <= k < |xs| ==> m <= xs[k]
  {
    if |xs| == 1 then xs[0] else var rest := MinOf(xs[1..]); if xs[0] <= rest then xs[0] else rest
  }

  /** `max(xs)`. */
  function MaxOf(xs: seq<int>): (m: int)
    requires xs != []
    ensures m in xs && forall k :: 0 <= k < |xs| ==> xs[k] <= m
  {
    if |xs| == 1 then xs[0] else var rest := MaxOf(xs[1..]); if xs[0] >= rest then xs[0] else rest
  }

  /** `sequence_info`. */
  datatype SequenceInfo = SequenceInfo(count: nat, low: int, high: int, consecutive: bool, duplicates: bool)

  /** The violations of the sequence check for a layout with numbered mains. */
  function SequenceViolations(actual: seq<int>): seq<Violation>
  {
    (if actual != Iota(|actual|) then [NotConsecutive(actual, Iota(|actual|))] else []) +
    (if Repeated(actual) != [] then [DuplicateNumbers(Repeated(actual))] else [])
  }

  /**
   * `check_main_process_sequence`: without numbered mains the sequence check passes with a warning;
   * otherwise it fails iff the sorted numbers are not 1..n, and lists the repeated numbers.
   */
  method CheckMainProcessSequence(layout: seq<Rect>) returns (c: Check, info: Option<SequenceInfo>)
    ensures NumberedMains(layout) == [] ==> c == Check(true, [], [NoMainProcesses]) && info == None
    ensures NumberedMains(layout) != [] ==> c.warnings == [] && c.violations == SequenceViolations(ActualSequence(layout))
    ensures NumberedMains(layout) != [] ==>
      info.Some? && info.value.count == |NumberedMains(layout)| &&
      (info.value.consecutive <==> NumberingHolds(layout)) &&
      (info.value.duplicates <==> !Distinct(Numbers(NumberedMains(layout), SequenceNumber)))
    ensures c.valid <==> NumberingHolds(layout)
    ensures c.valid <==> c.violations == []
  {
    var mains := FilterLoop(layout, NumberedMain);
    if mains == [] {
      return Check(true, [], [NoMainProcesses]), None;
    }
    var sorted := SortDesc(mains, ByNumber(SequenceNumber));
    var actual := Numbers(sorted, SequenceNumber);
    assert actual == ActualSequence(layout);
    var check, duplicates := SequenceVerdict(actual);
    ActualSequenceFacts(layout);
    c := check;
    info := Some(SequenceInfo(|mains|, MinOf(actual), MaxOf(actual), actual == Iota(|mains|), duplicates != []));
  }

  /** The two tests of the sequence check on the sorted numbers: `actual == expected`, then the repeats. */
  method SequenceVerdict(actual: seq<int>) returns (c: Check, duplicates: seq<int>)
    ensures c.violations == SequenceViolations(actual) && c.warnings == []
    ensures duplicates == Repeated(actual)
    ensures c.valid <==> actual == Iota(|actual|)
    ensures c.valid <==> c.violations == []
  {
    var expected := Iota(|actual|);
    var valid := true;
    var violations := [];
    if actual != expected {
      valid := false;
      violations := violations + [NotConsecutive(actual, expected)];
    }
    duplicates := RepeatedNumbers(actual);
    if duplicates != [] {
      valid := false;
      violations := violations + [DuplicateNumbers(duplicates)];
    }
    if actual == expected {
      IotaDistinct(|actual|);
      RepeatedSpec(actual);
    }
    c := Check(valid, violations, []);
  }

  /**
   * The sorted numbers are 1..n exactly when the numbering rule holds, and repeat a number
   * exactly when the main processes' numbers do; 1..n repeats none.
   */
  lemma {:induction false} ActualSequenceFacts(layout: seq<Rect>)
    ensures |ActualSequence(layout)| == |NumberedMains(layout)|
    ensures ActualSequence(layout) == Iota(|NumberedMains(layout)|) <==> NumberingHolds(layout)
    ensures Repeated(ActualSequence(layout)) == [] <==> Distinct(Numbers(NumberedMains(layout), SequenceNumber))
    ensures NumberingHolds(layout) ==> Repeated(ActualSequence(layout)) == []
  {
    NumbersOfSorted(NumberedMains(layout), SequenceNumber);
    SequenceRepeats(Numbers(NumberedMains(layout), SequenceNumber));
  }

  /** The sorted numbers repeat a number iff the numbers do, and 1..n repeats none. */
  lemma {:induction false} SequenceRepeats(ns: seq<int>)
    ensures Repeated(SortedAsc(ns)) == [] <==> Distinct(ns)
    ensures SortedAsc(ns) == Iota(|ns|) ==> Repeated(SortedAsc(ns)) == []
  {
    SortedAscSpec(ns);
    RepeatedSpec(SortedAsc(ns));
    DistinctMultiset(ns);
    DistinctMultiset(SortedAsc(ns));
    if SortedAsc(ns) == Iota(|ns|) {
      IotaDistinct(|ns|);
    }
  }

  /**
   * What the numbering rule means: the sequence check passes iff each of 1..n is the number of exactly
   * one numbered main process and no other number occurs.
   */
  lemma {:induction false} NumberingMeaning(layout: seq<Rect>)
    ensures NumberingHolds(layout) <==>
      multiset(Numbers(NumberedMains(layout), SequenceNumber)) == multiset(Iota(|NumberedMains(layout)|))
  {
    OneToN(Numbers(NumberedMains(layout), SequenceNumber));
  }

  // ---------------------------------------------------------------- check_minimum_spacing

  /** `min_spacing`'s default. */
  const DefaultMinSpacing: real := 0.5

  /** What the spacing check records for the pair (a, b). */
  function SpacingEntry(a: Rect, b: Rect, minSpacing: real): seq<Violation>
  {
    if !Overlaps(a, b) && EdgeDistance(a, b) < minSpacing
    then [TooClose(a.id, b.id, EdgeDistance(a, b), minSpacing)]
    else []
  }

  function SpacingFound(minSpacing: real): (Rect, Rect) -> seq<Violation>
  {
    (a: Rect, b: Rect) => SpacingEntry(a, b, minSpacing)
  }

  /** `check_minimum_spacing`: non-overlapping pairs closer than `minSpacing`; overlapping pairs are skipped. */
  method CheckMinimumSpacing(layout: seq<Rect>, minSpacing: real) returns (c: Check)
    ensures c.violations == Pairs(layout, SpacingFound(minSpacing)) && c.warnings == []
    ensures c.valid <==> SpacedApart(layout, minSpacing)
    ensures c.valid <==> c.violations == []
  {
    var valid := true;
    var violations := [];
    for i := 0 to |layout|
      invariant violations == Rows(layout, i, SpacingFound(minSpacing))
      invariant valid <==> violations == []
    {
      var row := SpacingRow(layout, minSpacing, i);
      if row != [] {
        valid := false;
      }
      violations := violations + row;
    }
    SpacingReported(layout, minSpacing);
    c := Check(valid, violations, []);
  }

  /** The inner loop `for rect2 in layout[i + 1:]` of the spacing check. */
  method SpacingRow(layout: seq<Rect>, minSpacing: real, i: nat) returns (row: seq<Violation>)
    requires i < |layout|
    ensures row == RowTo(layout, i, |layout|, SpacingFound(minSpacing))
  {
    row := [];
    for j := i + 1 to |layout|
      invariant row == RowTo(layout, i, j, SpacingFound(minSpacing))
    {
      var a, b := layout[i], layout[j];
      if !Overlaps(a, b) {
        var distance := EdgeDistance(a, b);
        if distance < minSpacing {
          row := row + [TooClose(a.id, b.id, distance, minSpacing)];
        }
      }
    }
  }

  /** Every non-overlapping pair keeps at least `minSpacing` between its edges. */
  predicate SpacedApart(layout: seq<Rect>, minSpacing: real)
  {
    forall a, b :: 0 <= a < b < |layout| && !Overlaps(layout[a], layout[b]) ==>
      EdgeDistance(layout[a], layout[b]) >= minSpacing
  }

  /** The spacing check reports nothing iff the layout is spaced apart. */
  lemma {:induction false} SpacingReported(layout: seq<Rect>, minSpacing: real)
    ensures Pairs(layout, SpacingFound(minSpacing)) == [] <==> SpacedApart(layout, minSpacing)
  {
    PairsEmpty(layout, SpacingFound(minSpacing));
  }

  // ---------------------------------------------------------------- is_valid and validate_layout

  /** What `is_valid` accepts: a non-empty layout with no overlap, inside the site, clear of the zones and hazard-safe. */
  predicate ValidLayout(h: Handler, layout: seq<Rect>)
  {
    layout != [] && PairwiseDisjoint(layout) && WithinSite(h, layout) && ClearOfZones(h, layout) && HazardSafe(h, layout)
  }

  /** `is_valid`: a non-empty layout passing the overlap, boundary, zone and hazard checks (not the numbering). */
  method IsValid(h: Handler, layout: seq<Rect>) returns (ok: bool)
    ensures ok <==> layout != [] && PairwiseDisjoint(layout) && WithinSite(h, layout) &&
                    ClearOfZones(h, layout) && HazardSafe(h, layout)
  {
    if layout == [] {
      return false;
    }
    var overlaps := CheckNoOverlaps(layout);
    var boundaries := CheckWithinBoundaries(h, layout);
    var zones := CheckNoFixedZoneViolations(h, layout);
    var hazards := CheckHazardDistances(h, layout);
    ok := overlaps.valid && boundaries.valid && zones.valid && hazards.valid;
  }

  datatype Statistics = Statistics(processCount: nat, mainCount: nat, subCount: nat, totalArea: real, utilization: real)

  predicate IsMainKind(r: Rect) { r.kind == Main }
  predicate IsSubKind(r: Rect) { r.kind == Sub }

  /** `validation_result['statistics']`. */
  function LayoutStatistics(h: Handler, layout: seq<Rect>): Statistics
  {
    Statistics(|layout|, |Filter(layout, IsMainKind)|, |Filter(layout, IsSubKind)|,
               TotalArea(layout), UtilizationRatio(layout, h.width, h.height))
  }

  /** `validation_result['constraints']`, in the dict's order. */
  datatype Checks = Checks(overlaps: Check, boundaries: Check, fixedZones: Check, hazardDistances: Check, sequence: Check)

  function CheckList(cs: Checks): seq<Check>
  {
    [cs.overlaps, cs.boundaries, cs.fixedZones, cs.hazardDistances, cs.sequence]
  }

  /** What a failed check contributes to the combined list. */
  function FailedViolations(c: Check): seq<Violation>
  {
    if c.valid then [] else c.violations
  }

  function CheckWarnings(c: Check): seq<Warning>
  {
    c.warnings
  }

  datatype Validation = Validation(valid: bool, violations: seq<Violation>, warnings: seq<Warning>,
                                   checks: Option<Checks>, statistics: Option<Statistics>)

  /** Every check in cs passed. */
  predicate AllPassed(cs: seq<Check>)
  {
    forall k :: 0 <= k < |cs| ==> cs[k].valid
  }

  /**
   * What collecting the results gives: whether every check passed, the violations of the failed
   * checks and the warnings of all of them, each in the checks' order.
   */
  function Collected(cs: seq<Check>): (bool, seq<Violation>, seq<Warning>)
  {
    (AllPassed(cs), Each(cs, |cs|, FailedViolations), Each(cs, |cs|, CheckWarnings))
  }

  /** The collecting loop over the five results. */
  method Combine(cs: seq<Check>) returns (valid: bool, violations: seq<Violation>, warnings: seq<Warning>)
    ensures (valid, violations, warnings) == Collected(cs)
  {
    valid, violations, warnings := true, [], [];
    for k := 0 to |cs|
      invariant valid <==> forall m :: 0 <= m < k ==> cs[m].valid
      invariant violations == Each(cs, k, FailedViolations)
      invariant warnings == Each(cs, k, CheckWarnings)
    {
      if !cs[k].valid {
        valid := false;
        violations := violations + cs[k].violations;
      }
      if cs[k].warnings != [] {
        warnings := warnings + cs[k].warnings;
      }
    }
  }

  /** The combined violations of the five checks of a non-empty layout, in the dict's order. */
  function AllViolations(h: Handler, layout: seq<Rect>): seq<Violation>
  {
    Pairs(layout, OverlapFound()) + Each(layout, |layout|, OutsideFound(h)) +
    Product(layout, h.zones, ZoneFound()) + Pairs(layout, HazardFound(h)) +
    (if NumberedMains(layout) == [] then [] else SequenceViolations(ActualSequence(layout)))
  }

  /**
   * `validate_layout`: an empty layout is invalid with the single "empty" violation; otherwise
   * the layout is valid iff all five checks pass, the violations are theirs in order, and the
   * only warning is the missing-mains one.
   */
  method ValidateLayout(h: Handler, layout: seq<Rect>) returns (v: Validation)
    ensures v.valid <==> v.violations == []
    ensures layout == [] ==> v == Validation(false, [EmptyLayout], [], None, None)
    ensures layout != [] ==>
      (v.valid <==> (PairwiseDisjoint(layout) && WithinSite(h, layout) &&
                     ClearOfZones(h, layout) && HazardSafe(h, layout) && NumberingHolds(layout)))
    ensures layout != [] ==> v.violations == AllViolations(h, layout)
    ensures layout != [] ==> v.warnings == (if NumberedMains(layout) == [] then [NoMainProcesses] else [])
    ensures layout != [] ==> v.checks.Some? && v.statistics == Some(LayoutStatistics(h, layout))
  {
    if layout == [] {
      return Validation(false, [EmptyLayout], [], None, None);
    }
    var checks := RunChecks(h, layout);
    var cs := CheckList(checks);
    assert |cs| == 5;
    var valid, violations, warnings := Combine(cs);
    // the five results, concatenated, are the layout's violations and warnings
    CombinedFive(cs);
    ChecksValid(checks);
    assert FailedViolations(cs[0]) == Pairs(layout, OverlapFound());
    assert FailedViolations(cs[1]) == Each(layout, |layout|, OutsideFound(h));
    assert FailedViolations(cs[2]) == Product(layout, h.zones, ZoneFound());
    assert FailedViolations(cs[3]) == Pairs(layout, HazardFound(h));
    assert FailedViolations(cs[4]) == (if NumberedMains(layout) == [] then [] else SequenceViolations(ActualSequence(layout)));
    v := Validation(valid, violations, warnings, Some(checks), Some(LayoutStatistics(h, layout)));
  }

  /** The five checks of `validate_layout`, in order. */
  method RunChecks(h: Handler, layout: seq<Rect>) returns (checks: Checks)
    ensures ChecksOf(h, layout, checks)
  {
    var overlaps := CheckNoOverlaps(layout);
    var boundaries := CheckWithinBoundaries(h, layout);
    var zones := CheckNoFixedZoneViolations(h, layout);
    var hazards := CheckHazardDistances(h, layout);
    var sequence, _ := CheckMainProcessSequence(layout);
    checks := Checks(overlaps, boundaries, zones, hazards, sequence);
  }

  /** A result passes iff it records no violation. */
  predicate Consistent(c: Check)
  {
    c.valid <==> c.violations == []
  }

  /** The five results of a non-empty layout, as the five check methods promise them. */
  predicate ChecksOf(h: Handler, layout: seq<Rect>, cs: Checks)
  {
    Consistent(cs.overlaps) && Consistent(cs.boundaries) && Consistent(cs.fixedZones) &&
    Consistent(cs.hazardDistances) && Consistent(cs.sequence) &&
    cs.overlaps.violations == Pairs(layout, OverlapFound()) && cs.overlaps.warnings == [] &&
    cs.boundaries.violations == Each(layout, |layout|, OutsideFound(h)) && cs.boundaries.warnings == [] &&
    cs.fixedZones.violations == Product(layout, h.zones, ZoneFound()) && cs.fixedZones.warnings == [] &&
    cs.hazardDistances.violations == Pairs(layout, HazardFound(h)) && cs.hazardDistances.warnings == [] &&
    (NumberedMains(layout) == [] ==> cs.sequence == Check(true, [], [NoMainProcesses])) &&
    (NumberedMains(layout) != [] ==>
      cs.sequence.warnings == [] && cs.sequence.violations == SequenceViolations(ActualSequence(layout))) &&
    (cs.overlaps.valid <==> PairwiseDisjoint(layout)) &&
    (cs.boundaries.valid <==> WithinSite(h, layout)) &&
    (cs.fixedZones.valid <==> ClearOfZones(h, layout)) &&
    (cs.hazardDistances.valid <==> HazardSafe(h, layout)) &&
    (cs.sequence.valid <==> NumberingHolds(layout))
  }

  /** All five results pass iff each of them does, and then nothing is collected. */
  lemma {:induction false} ChecksValid(cs: Checks)
    requires Consistent(cs.overlaps) && Consistent(cs.boundaries) && Consistent(cs.fixedZones)
    requires Consistent(cs.hazardDistances) && Consistent(cs.sequence)
    ensures (forall k :: 0 <= k < 5 ==> CheckList(cs)[k].valid) <==>
      (cs.overlaps.valid && cs.boundaries.valid && cs.fixedZones.valid && cs.hazardDistances.valid && cs.sequence.valid)
    ensures (forall k :: 0 <= k < 5 ==> CheckList(cs)[k].valid) <==> Each(CheckList(cs), 5, FailedViolations) == []
  {
    var l := CheckList(cs);
    CombinedFive(l);
    if l[0].valid && l[1].valid && l[2].valid && l[3].valid && l[4].valid {
      forall k | 0 <= k < 5 ensures l[k].valid {
        if k == 0 {} else if k == 1 {} else if k == 2 {} else if k == 3 {}
      }
    }
  }

  /** The collecting loop over five checks, written out. */
  lemma {:induction false} CombinedFive(cs: seq<Check>)
    requires |cs| == 5
    ensures Each(cs, 5, FailedViolations) ==
      FailedViolations(cs[0]) + FailedViolations(cs[1]) + FailedViolations(cs[2]) + FailedViolations(cs[3]) + FailedViolations(cs[4])
    ensures Each(cs, 5, CheckWarnings) == cs[0].warnings + cs[1].warnings + cs[2].warnings + cs[3].warnings + cs[4].warnings
  {
    assert Each(cs, 1, FailedViolations) == FailedViolations(cs[0]);
    assert Each(cs, 3, FailedViolations) == FailedViolations(cs[0]) + FailedViolations(cs[1]) + FailedViolations(cs[2]);
    assert Each(cs, 1, CheckWarnings) == cs[0].warnings;
    assert Each(cs, 3, CheckWarnings) == cs[0].warnings + cs[1].warnings + cs[2].warnings;
  }
}
