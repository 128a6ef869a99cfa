/**
 * The sequence-based layout generator (`SequenceLayoutGenerator`). Main processes are laid out
 * as a chain: the first one is placed, then each further one touches its predecessor on a
 * side chosen by a direction vector, with a rotation chosen by a rotation vector. Every
 * rotation vector (one bit per process) and every direction vector (one base-4 digit per
 * link) is tried. Sub processes are then added greedily, each at the best-scoring free
 * candidate position. A layout is summarised by a layout code.
 *
 * The pieces the improved generator shares unchanged (rectangle creation, adjacent
 * placement, the enumerations, the placement test, centring, sub-process placement and
 * the layout code) are defined here once.
 */
module LayoutGenerator {
  import opened Wrappers
  import opened Collect
  import opened Sorting
  import opened Geometry

  /** A process record as the generator reads it; `building_type` and `name` may be absent. */
  datatype Process = Process(id: string, w: real, h: real, kind: Option<Kind>, sequence: Option<int>, name: Option<string>)

  /** The site the generator works on: its size and its fixed zones. */
  datatype Site = Site(width: real, height: real, zones: seq<Rect>)

  // ---------------------------------------------------------------- process rectangles

  /**
   * `_create_process_rect`: width and height swapped when rotated; `building_type` defaults to
   * main and the name to the id.
   */
  function CreateRect(p: Process, x: real, y: real, rotated: bool): Rect
  {
    Rect(p.id, x, y, if rotated then p.h else p.w, if rotated then p.w else p.h, rotated,
         p.kind.GetOr(Main), p.sequence, Some(p.name.GetOr(p.id)))
  }

  /**
   * The rotated rectangle of a process is the unrotated one turned by `rotate_rectangle`; both
   * carry the process's identity and area.
   */
  lemma {:induction false} CreateRectRotation(p: Process, x: real, y: real)
    ensures CreateRect(p, x, y, true) == Rotate(CreateRect(p, x, y, false))
    ensures forall rotated :: CreateRect(p, x, y, rotated).id == p.id && Area(CreateRect(p, x, y, rotated)) == p.w * p.h
    ensures forall rotated :: CreateRect(p, x, y, rotated).rotated == rotated
  {
  }

  // ---------------------------------------------------------------- directions and adjacent placement

  datatype Direction = Bottom | Right | Top | Left

  /** `['bottom', 'right', 'top', 'left']`: the order of the enumeration's digits and of the candidate loop. */
  const Directions: seq<Direction> := [Bottom, Right, Top, Left]

  function DirectionName(d: Direction): string
  {
    match d
    case Bottom => "bottom"
    case Right => "right"
    case Top => "top"
    case Left => "left"
  }

  /** The direction a string names, if it names one. */
  function ParseDirection(name: string): (d: Option<Direction>)
    ensures d.Some? ==> DirectionName(d.value) == name
    ensures d.None? ==> forall e: Direction :: DirectionName(e) != name
  {
    if name == "bottom" then Some(Bottom)
    else if name == "right" then Some(Right)
    else if name == "top" then Some(Top)
    else if name == "left" then Some(Left)
    else None
  }

  lemma {:induction false} ParseDirectionName(d: Direction)
    ensures ParseDirection(DirectionName(d)) == Some(d)
  {
  }

  /** `_place_adjacent_process` for one of the four sides. */
  function PlaceAdjacent(p: Process, reference: Rect, d: Direction, rotated: bool): Rect
  {
    var w := if rotated then p.h else p.w;
    var h := if rotated then p.w else p.h;
    match d
    case Bottom => CreateRect(p, reference.x, Geometry.Bottom(reference), rotated)
    case Right => CreateRect(p, Geometry.Right(reference), reference.y, rotated)
    case Top => CreateRect(p, reference.x, reference.y - h, rotated)
    case Left => CreateRect(p, reference.x - w, reference.y, rotated)
  }

  /** `_place_adjacent_process` with the side given by name: None for a name that is not one of the four. */
  function PlaceAdjacentNamed(p: Process, reference: Rect, name: string, rotated: bool): (r: Option<Rect>)
    ensures r.None? <==> forall e: Direction :: DirectionName(e) != name
    ensures r.Some? ==> exists e: Direction :: DirectionName(e) == name && r.value == PlaceAdjacent(p, reference, e, rotated)
  {
    match ParseDirection(name)
    case None => None
    case Some(d) => Some(PlaceAdjacent(p, reference, d, rotated))
  }

  /**
   * The placed rectangle is the process's rectangle (sizes swapped iff rotated), it touches the
   * reference on the named side with the side's starting corners aligned, so it never overlaps
   * the reference, and for rectangles of non-negative size the two are at edge distance 0.
   */
  lemma {:induction false} PlaceAdjacentTouches(p: Process, reference: Rect, d: Direction, rotated: bool)
    ensures var r := PlaceAdjacent(p, reference, d, rotated);
      r == CreateRect(p, r.x, r.y, rotated) &&
      (d == Bottom ==> r.x == reference.x && r.y == Geometry.Bottom(reference)) &&
      (d == Right ==> r.x == Geometry.Right(reference) && r.y == reference.y) &&
      (d == Top ==> r.x == reference.x && Geometry.Bottom(r) == reference.y) &&
      (d == Left ==> Geometry.Right(r) == reference.x && r.y == reference.y)
    ensures !Overlaps(PlaceAdjacent(p, reference, d, rotated), reference)
    ensures NonNegativeSize(reference) && p.w >= 0.0 && p.h >= 0.0 ==>
      EdgeDistance(PlaceAdjacent(p, reference, d, rotated), reference) == 0.0
  {
  }

  // ---------------------------------------------------------------- rotation and direction vectors

  function Pow(b: nat, n: nat): (r: nat)
    ensures b >= 1 ==> r >= 1
  {
    if n == 0 then 1 else b * Pow(b, n - 1)
  }

  /** Bit j of i, the value of `(i & (1 << j)) != 0`. */
  function Bit(i: nat, j: nat): bool
  {
    if j == 0 then i % 2 == 1 else Bit(i / 2, j - 1)
  }

  /** The rotation vector of index i over n processes: entry j is bit j of i. */
  function Bits(n: nat, i: nat): (v: seq<bool>)
    ensures |v| == n
  {
    if n == 0 then [] else [i % 2 == 1] + Bits(n - 1, i / 2)
  }

  lemma {:induction false} BitsAt(n: nat, i: nat, j: nat)
    requires j < n
    ensures Bits(n, i)[j] == Bit(i, j)
  {
    if j > 0 {
      BitsAt(n - 1, i / 2, j - 1);
    }
  }

  /** The number a rotation vector encodes, bit j for entry j. */
  function BitsValue(v: seq<bool>): nat
  {
    if v == [] then 0 else (if v[0] then 1 else 0) + 2 * BitsValue(v[1..])
  }

  lemma {:induction false} BitsRoundTrip(n: nat, i: nat)
    requires i < Pow(2, n)
    ensures BitsValue(Bits(n, i)) == i
  {
    if n > 0 {
      BitsRoundTrip(n - 1, i / 2);
      assert Bits(n, i)[1..] == Bits(n - 1, i / 2);
    }
  }

  lemma {:induction false} BitsOfValue(v: seq<bool>)
    ensures BitsValue(v) < Pow(2, |v|)
    ensures Bits(|v|, BitsValue(v)) == v
  {
    if v != [] {
      BitsOfValue(v[1..]);
      var b := if v[0] then 1 else 0;
      assert (b + 2 * BitsValue(v[1..])) / 2 == BitsValue(v[1..]);
      assert v == [v[0]] + v[1..];
    }
  }

  /** `_generate_rotation_combinations(n)`: the vectors of the indices 0 .. 2^n - 1, in index order. */
  function RotationVectors(n: nat): seq<seq<bool>>
  {
    seq(Pow(2, n), (i: int) requires 0 <= i => Bits(n, i))
  }

  /** There are exactly 2^n rotation vectors, all of length n, all different, and every vector of n flags is one of them. */
  lemma {:induction false} RotationVectorsExact(n: nat)
    ensures |RotationVectors(n)| == Pow(2, n)
    ensures forall k :: 0 <= k < |RotationVectors(n)| ==> |RotationVectors(n)[k]| == n
    ensures Distinct(RotationVectors(n))
    ensures forall v: seq<bool> :: |v| == n ==> v in RotationVectors(n)
  {
    var vs := RotationVectors(n);
    forall a, b | 0 <= a < b < |vs|
      ensures vs[a] != vs[b]
    {
      BitsRoundTrip(n, a);
      BitsRoundTrip(n, b);
    }
    forall v: seq<bool> | |v| == n
      ensures v in vs
    {
      BitsOfValue(v);
      assert vs[BitsValue(v)] == v;
    }
  }

  /** The two nested loops of `_generate_rotation_combinations`. */
  method RotationCombinations(n: nat) returns (cs: seq<seq<bool>>)
    ensures cs == RotationVectors(n)
  {
    cs := [];
    for i := 0 to Pow(2, n)
      invariant |cs| == i
      invariant forall k :: 0 <= k < i ==> cs[k] == Bits(n, k)
    {
      var c := [];
      for j := 0 to n
        invariant c == Bits(n, i)[..j]
      {
        BitsAt(n, i, j);
        c := c + [Bit(i, j)];
      }
      cs := cs + [c];
    }
  }

  function DirectionIndex(d: Direction): (k: nat)
    ensures k < 4 && Directions[k] == d
  {
    match d
    case Bottom => 0
    case Right => 1
    case Top => 2
    case Left => 3
  }

  /** The direction vector of index i over k links: entry m is base-4 digit m of i. */
  function Digits(k: nat, i: nat): (v: seq<Direction>)
    ensures |v| == k
  {
    if k == 0 then [] else [Directions[i % 4]] + Digits(k - 1, i / 4)
  }

  /** The number a direction vector encodes, base-4 digit m for entry m. */
  function DigitsValue(v: seq<Direction>): nat
  {
    if v == [] then 0 else DirectionIndex(v[0]) + 4 * DigitsValue(v[1..])
  }

  lemma {:induction false} DigitsRoundTrip(k: nat, i: nat)
    requires i < Pow(4, k)
    ensures DigitsValue(Digits(k, i)) == i
  {
    if k > 0 {
      DigitsRoundTrip(k - 1, i / 4);
      assert Digits(k, i)[1..] == Digits(k - 1, i / 4);
      assert DirectionIndex(Directions[i % 4]) == i % 4 by {
        assert Directions[DirectionIndex(Directions[i % 4])] == Directions[i % 4];
        assert Directions[0] != Directions[1] && Directions[0] != Directions[2] && Directions[0] != Directions[3];
        assert Directions[1] != Directions[2] && Directions[1] != Directions[3] && Directions[2] != Directions[3];
      }
    }
  }

  lemma {:induction false} DigitsOfValue(v: seq<Direction>)
    ensures DigitsValue(v) < Pow(4, |v|)
    ensures Digits(|v|, DigitsValue(v)) == v
  {
    if v != [] {
      DigitsOfValue(v[1..]);
      var d := DirectionIndex(v[0]);
      assert (d + 4 * DigitsValue(v[1..])) / 4 == DigitsValue(v[1..]);
      assert (d + 4 * DigitsValue(v[1..])) % 4 == d;
      assert v == [v[0]] + v[1..];
    }
  }

  /** `_generate_direction_combinations(k)`: the vectors of the indices 0 .. 4^k - 1, in index order. */
  function DirectionVectors(k: nat): seq<seq<Direction>>
  {
    seq(Pow(4, k), (i: int) requires 0 <= i => Digits(k, i))
  }

  /**
   * There are exactly 4^k direction vectors, all of length k, all different, and every vector of
   * k directions is one of them; for k = 0 the only one is the empty vector.
   */
  lemma {:induction false} DirectionVectorsExact(k: nat)
    ensures |DirectionVectors(k)| == Pow(4, k)
    ensures forall m :: 0 <= m < |DirectionVectors(k)| ==> |DirectionVectors(k)[m]| == k
    ensures Distinct(DirectionVectors(k))
    ensures forall v: seq<Direction> :: |v| == k ==> v in DirectionVectors(k)
    ensures k == 0 ==> DirectionVectors(k) == [[]]
  {
    var vs := DirectionVectors(k);
    forall a, b | 0 <= a < b < |vs|
      ensures vs[a] != vs[b]
    {
      DigitsRoundTrip(k, a);
      DigitsRoundTrip(k, b);
    }
    forall v: seq<Direction> | |v| == k
      ensures v in vs
    {
      DigitsOfValue(v);
      assert vs[DigitsValue(v)] == v;
    }
  }

  /** The loops of `_generate_direction_combinations`: `temp % 4` picks a side, `temp //= 4` shifts. */
  method DirectionCombinations(k: nat) returns (cs: seq<seq<Direction>>)
    ensures cs == DirectionVectors(k)
  {
    if k == 0 {
      assert DirectionVectors(0) == [[]] by {
        assert |DirectionVectors(0)| == 1 && DirectionVectors(0)[0] == [];
      }
      return [[]];
    }
    cs := [];
    for i := 0 to Pow(4, k)
      invariant |cs| == i
      invariant forall m :: 0 <= m < i ==> cs[m] == Digits(k, m)
    {
      var c := [];
      var temp: nat := i;
      for j := 0 to k
        invariant c + Digits(k - j, temp) == Digits(k, i)
      {
        assert Digits(k - j, temp) == [Directions[temp % 4]] + Digits(k - j - 1, temp / 4);
        c := c + [Directions[temp % 4]];
        temp := temp / 4;
      }
      cs := cs + [c];
    }
  }

  // ---------------------------------------------------------------- placement tests

  /**
   * `_is_valid_placement`: the rectangle overlaps no rectangle already placed and no fixed zone.
   * The site boundary is deliberately not looked at.
   */
  predicate ValidPlacement(site: Site, r: Rect, layout: seq<Rect>)
  {
    Clear(layout, r) && Clear(site.zones, r)
  }

  /** The two scans of `_is_valid_placement`. */
  method IsValidPlacement(site: Site, r: Rect, layout: seq<Rect>) returns (ok: bool)
    ensures ok <==> (forall k :: 0 <= k < |layout| ==> !Overlaps(r, layout[k])) &&
                    (forall k :: 0 <= k < |site.zones| ==> !Overlaps(r, site.zones[k]))
    ensures ok == ValidPlacement(site, r, layout)
  {
    ok := IsClear(layout, r);
    if ok {
      ok := IsClear(site.zones, r);
    }
  }

  /** A rectangle far outside the site still passes the placement test when nothing is in its way. */
  lemma {:induction false} PlacementIgnoresSite(site: Site)
    requires site.zones == []
    ensures ValidPlacement(site, Probe(site.width + 1.0, site.height + 1.0, 1.0, 1.0), [])
    ensures !InBounds(Probe(site.width + 1.0, site.height + 1.0, 1.0, 1.0), site.width, site.height)
  {
  }

  /**
   * `_validate_complete_layout`: the layout is not empty, with `strict` every rectangle lies
   * inside the site, and no two rectangles overlap. The improved generator's version is the
   * one with `strict` false.
   */
  method ValidateCompleteLayout(layout: seq<Rect>, strict: bool, width: real, height: real) returns (ok: bool)
    ensures ok <==> layout != [] && (strict ==> forall k :: 0 <= k < |layout| ==> InBounds(layout[k], width, height)) &&
                    PairwiseDisjoint(layout)
  {
    if layout == [] {
      return false;
    }
    if strict {
      for k := 0 to |layout|
        invariant forall m :: 0 <= m < k ==> InBounds(layout[m], width, height)
      {
        if !InBounds(layout[k], width, height) {
          return false;
        }
      }
    }
    for i := 0 to |layout|
      invariant forall a, b :: 0 <= a < i && a < b < |layout| ==> !Overlaps(layout[a], layout[b])
    {
      for j := i + 1 to |layout|
        invariant forall a, b :: (0 <= a < i && a < b < |layout|) || (a == i && i < b < j) ==> !Overlaps(layout[a], layout[b])
      {
        if Overlaps(layout[i], layout[j]) {
          return false;
        }
      }
    }
    return true;
  }

  // ---------------------------------------------------------------- chain placement

  /**
   * The first n + 1 rectangles of a chain: `first`, then for k < n the process `rest[k]` placed
   * against rectangle k on side `dirs[k]` with rotation `rots[k]`. None as soon as a rectangle
   * fails the placement test against those before it.
   */
  function Chain(site: Site, first: Rect, rest: seq<Process>, rots: seq<bool>, dirs: seq<Direction>, n: nat): (c: Option<seq<Rect>>)
    requires n <= |rest| && n <= |rots| && n <= |dirs|
    ensures c.Some? ==> |c.value| == n + 1
  {
    if n == 0 then
      if ValidPlacement(site, first, []) then Some([first]) else None
    else
      match Chain(site, first, rest, rots, dirs, n - 1)
      case None => None
      case Some(l) =>
        var q := PlaceAdjacent(rest[n - 1], l[n - 1], dirs[n - 1], rots[n - 1]);
        if ValidPlacement(site, q, l) then Some(l + [q]) else None
  }

  /** Once a chain has failed, no longer chain succeeds. */
  lemma {:induction false} ChainNoneStays(site: Site, first: Rect, rest: seq<Process>, rots: seq<bool>, dirs: seq<Direction>, m: nat, n: nat)
    requires m <= n <= |rest| && n <= |rots| && n <= |dirs|
    requires Chain(site, first, rest, rots, dirs, m).None?
    ensures Chain(site, first, rest, rots, dirs, n).None?
    decreases n
  {
    if m < n {
      ChainNoneStays(site, first, rest, rots, dirs, m, n - 1);
    }
  }

  /**
   * A complete chain starts with `first`, each further rectangle touches its predecessor on the
   * chosen side with the chosen rotation, no two rectangles overlap and none overlaps a fixed zone.
   */
  lemma {:induction false} ChainShape(site: Site, first: Rect, rest: seq<Process>, rots: seq<bool>, dirs: seq<Direction>, n: nat)
    requires n <= |rest| && n <= |rots| && n <= |dirs|
    requires Chain(site, first, rest, rots, dirs, n).Some?
    ensures var l := Chain(site, first, rest, rots, dirs, n).value;
      l[0] == first &&
      (forall k :: 0 <= k < n ==> l[k + 1] == PlaceAdjacent(rest[k], l[k], dirs[k], rots[k])) &&
      PairwiseDisjoint(l) &&
      (forall k :: 0 <= k < |l| ==> Clear(site.zones, l[k]))
  {
    if n > 0 {
      ChainShape(site, first, rest, rots, dirs, n - 1);
      var l := Chain(site, first, rest, rots, dirs, n - 1).value;
      var q := PlaceAdjacent(rest[n - 1], l[n - 1], dirs[n - 1], rots[n - 1]);
      var l2 := l + [q];
      forall a | 0 <= a < |l|
        ensures !Overlaps(l2[a], l2[n])
      {
        OverlapsSymmetric(q, l[a]);
      }
    }
  }

  /** What a chain placement returns: the complete chain, if it passes the final check, moved to the site centre. */
  function Finish(site: Site, c: Option<seq<Rect>>): Option<seq<Rect>>
  {
    match c
    case None => None
    case Some(l) => if l != [] && PairwiseDisjoint(l) then Some(Centered(l, site.width, site.height)) else None
  }

  /** The final check never rejects a complete chain: every complete chain is returned, centred. */
  lemma {:induction false} FinishComplete(site: Site, first: Rect, rest: seq<Process>, rots: seq<bool>, dirs: seq<Direction>, n: nat)
    requires n <= |rest| && n <= |rots| && n <= |dirs|
    ensures Finish(site, Chain(site, first, rest, rots, dirs, n)).Some? <==> Chain(site, first, rest, rots, dirs, n).Some?
    ensures Chain(site, first, rest, rots, dirs, n).Some? ==>
      Finish(site, Chain(site, first, rest, rots, dirs, n)).value == Centered(Chain(site, first, rest, rots, dirs, n).value, site.width, site.height)
  {
    if Chain(site, first, rest, rots, dirs, n).Some? {
      ChainShape(site, first, rest, rots, dirs, n);
    }
  }

  /**
   * The loop shared by `_place_main_processes_sequentially` and `_place_main_processes_with_seed`:
   * test the first rectangle, then place and test each further process against its predecessor,
   * validate the complete layout without the boundary check and centre it.
   */
  method PlaceChain(site: Site, first: Rect, rest: seq<Process>, rots: seq<bool>, dirs: seq<Direction>) returns (r: Option<seq<Rect>>)
    requires |rest| <= |rots| && |rest| <= |dirs|
    ensures r == Finish(site, Chain(site, first, rest, rots, dirs, |rest|))
  {
    var ok := IsValidPlacement(site, first, []);
    if !ok {
      ChainNoneStays(site, first, rest, rots, dirs, 0, |rest|);
      return None;
    }
    var layout := [first];
    for i := 0 to |rest|
      invariant Chain(site, first, rest, rots, dirs, i) == Some(layout)
    {
      var q := PlaceAdjacent(rest[i], layout[i], dirs[i], rots[i]);
      ok := IsValidPlacement(site, q, layout);
      if !ok {
        ChainNoneStays(site, first, rest, rots, dirs, i + 1, |rest|);
        return None;
      }
      layout := layout + [q];
    }
    ok := ValidateCompleteLayout(layout, false, site.width, site.height);
    if !ok {
      return None;
    }
    var centered := CenterLayout(layout, site.width, site.height);
    return Some(centered);
  }

  /** Placing against a moved reference gives the moved placement. */
  lemma {:induction false} PlaceAdjacentTranslate(p: Process, reference: Rect, d: Direction, rotated: bool, dx: real, dy: real)
    ensures PlaceAdjacent(p, Translate(reference, dx, dy), d, rotated) == Translate(PlaceAdjacent(p, reference, d, rotated), dx, dy)
  {
  }

  // ---------------------------------------------------------------- the baseline's main placement

  /**
   * The baseline's first rectangle: the process (rotated as asked) with its corner at the site
   * centre `(W // 2, H // 2)`, then moved back by half its own size, `w // 2` and `h // 2`.
   */
  function SequentialFirst(site: Site, p: Process, rotated: bool): Rect
  {
    var r := CreateRect(p, FloorDiv(site.width, 2.0), FloorDiv(site.height, 2.0), rotated);
    r.(x := r.x - FloorDiv(r.w, 2.0), y := r.y - FloorDiv(r.h, 2.0))
  }

  /**
   * `_place_main_processes_sequentially`: process 0 at the centre with rotation `rotations[0]`, then
   * process i against process i - 1 on side `directions[i - 1]` with rotation `rotations[i]`.
   */
  function SequentialLayout(site: Site, mains: seq<Process>, rotations: seq<bool>, directions: seq<Direction>): Option<seq<Rect>>
    requires mains != [] ==> |rotations| >= |mains| && |directions| >= |mains| - 1
  {
    if mains == [] then None
    else Finish(site, Chain(site, SequentialFirst(site, mains[0], rotations[0]), mains[1..], rotations[1..], directions, |mains| - 1))
  }

  method PlaceSequentially(site: Site, mains: seq<Process>, rotations: seq<bool>, directions: seq<Direction>) returns (r: Option<seq<Rect>>)
    requires mains != [] ==> |rotations| >= |mains| && |directions| >= |mains| - 1
    ensures r == SequentialLayout(site, mains, rotations, directions)
  {
    if mains == [] {
      return None;
    }
    var first := SequentialFirst(site, mains[0], rotations[0]);
    r := PlaceChain(site, first, mains[1..], rotations[1..], directions);
  }

  /** The chain relation: rectangle k + 1 is `rest[k]` placed against rectangle k on side `dirs[k]` with rotation `rots[k]`. */
  predicate Linked(l: seq<Rect>, rest: seq<Process>, rots: seq<bool>, dirs: seq<Direction>)
  {
    |l| >= 1 && |l| - 1 <= |rest| && |l| - 1 <= |rots| && |l| - 1 <= |dirs| &&
    forall k :: 0 <= k < |l| - 1 ==> l[k + 1] == PlaceAdjacent(rest[k], l[k], dirs[k], rots[k])
  }

  /** Centring a chain keeps it a chain whose first rectangle is the old one moved, and keeps it overlap-free. */
  lemma {:induction false} CenteredLinked(l: seq<Rect>, rest: seq<Process>, rots: seq<bool>, dirs: seq<Direction>, width: real, height: real)
    requires Linked(l, rest, rots, dirs)
    ensures Linked(Centered(l, width, height), rest, rots, dirs)
    ensures Centered(l, width, height)[0].(x := l[0].x, y := l[0].y) == l[0]
    ensures PairwiseDisjoint(l) ==> PairwiseDisjoint(Centered(l, width, height))
  {
    var c := Centered(l, width, height);
    CenteredKeeps(l, width, height);
    var (dx, dy) := CenterOffset(l, width, height);
    forall k | 0 <= k < |c| - 1
      ensures c[k + 1] == PlaceAdjacent(rest[k], c[k], dirs[k], rots[k])
    {
      PlaceAdjacentTranslate(rest[k], l[k], dirs[k], rots[k], dx, dy);
    }
  }

  /**
   * A chain placement that succeeds returns a chain with `first` (moved) in front, without
   * overlaps, whose bounding box sits at the floored site centre.
   */
  lemma {:induction false} FinishShape(site: Site, first: Rect, rest: seq<Process>, rots: seq<bool>, dirs: seq<Direction>, n: nat, l: seq<Rect>)
    requires n <= |rest| && n <= |rots| && n <= |dirs|
    requires Finish(site, Chain(site, first, rest, rots, dirs, n)) == Some(l)
    ensures |l| == n + 1 && Linked(l, rest, rots, dirs) && l[0].(x := first.x, y := first.y) == first
    ensures PairwiseDisjoint(l)
    ensures Bounds(l).x == FloorDiv(site.width - Bounds(l).w, 2.0) && Bounds(l).y == FloorDiv(site.height - Bounds(l).h, 2.0)
  {
    ChainShape(site, first, rest, rots, dirs, n);
    var c := Chain(site, first, rest, rots, dirs, n).value;
    assert l == Centered(c, site.width, site.height);
    CenteredLinked(c, rest, rots, dirs, site.width, site.height);
    CenteredBounds(c, site.width, site.height);
  }

  /**
   * In a layout placed this way rectangle i is process i with rotation `rotations[i]`, and each
   * rectangle touches its predecessor on side `directions[i - 1]`.
   */
  lemma {:induction false} SequentialLayoutLinks(site: Site, mains: seq<Process>, rotations: seq<bool>, directions: seq<Direction>, l: seq<Rect>)
    requires mains != [] ==> |rotations| >= |mains| && |directions| >= |mains| - 1
    requires SequentialLayout(site, mains, rotations, directions) == Some(l)
    ensures |l| == |mains|
    ensures forall k :: 0 <= k < |l| ==> l[k] == CreateRect(mains[k], l[k].x, l[k].y, rotations[k])
    ensures forall k :: 0 <= k < |l| - 1 ==> l[k + 1] == PlaceAdjacent(mains[k + 1], l[k], directions[k], rotations[k + 1])
  {
    var first := SequentialFirst(site, mains[0], rotations[0]);
    var rest, rots := mains[1..], rotations[1..];
    var n := |mains| - 1;
    assert Finish(site, Chain(site, first, rest, rots, directions, n)) == Some(l);
    FinishShape(site, first, rest, rots, directions, n, l);
    assert first == CreateRect(mains[0], first.x, first.y, rotations[0]);
    assert l[0] == CreateRect(mains[0], l[0].x, l[0].y, rotations[0]);
    ShiftedLinks(l, mains, rotations, directions);
  }

  /** The chain relation over `mains[1..]` and `rotations[1..]`, read with the indices of `mains` and `rotations`. */
  lemma {:induction false} ShiftedLinks(l: seq<Rect>, mains: seq<Process>, rotations: seq<bool>, directions: seq<Direction>)
    requires 1 <= |mains| <= |rotations|
    requires Linked(l, mains[1..], rotations[1..], directions)
    requires l[0] == CreateRect(mains[0], l[0].x, l[0].y, rotations[0])
    ensures forall k :: 0 <= k < |l| ==> l[k] == CreateRect(mains[k], l[k].x, l[k].y, rotations[k])
    ensures forall k :: 0 <= k < |l| - 1 ==> l[k + 1] == PlaceAdjacent(mains[k + 1], l[k], directions[k], rotations[k + 1])
  {
    var rest, rots := mains[1..], rotations[1..];
    LinkedRects(l, rest, rots, directions);
    forall k | 0 <= k < |l| - 1
      ensures l[k + 1] == PlaceAdjacent(mains[k + 1], l[k], directions[k], rotations[k + 1])
    {
      assert rest[k] == mains[k + 1] && rots[k] == rotations[k + 1];
    }
    forall k | 1 <= k < |l|
      ensures l[k] == CreateRect(mains[k], l[k].x, l[k].y, rotations[k])
    {
      assert rest[k - 1] == mains[k] && rots[k - 1] == rotations[k];
    }
  }

  /** Every rectangle after the first is its process's rectangle with its rotation. */
  lemma {:induction false} LinkedRects(l: seq<Rect>, rest: seq<Process>, rots: seq<bool>, dirs: seq<Direction>)
    requires Linked(l, rest, rots, dirs)
    ensures forall k :: 1 <= k < |l| ==> l[k] == CreateRect(rest[k - 1], l[k].x, l[k].y, rots[k - 1])
  {
    forall k | 1 <= k < |l|
      ensures l[k] == CreateRect(rest[k - 1], l[k].x, l[k].y, rots[k - 1])
    {
      PlaceAdjacentTouches(rest[k - 1], l[k - 1], dirs[k - 1], rots[k - 1]);
    }
  }

  /**
   * Centring happens after the zone tests: on a 100 x 100 site with a 5 x 10 zone at (40, 45), two
   * 10 x 10 processes side by side pass every test, and centring moves the first onto the zone.
   */
  lemma {:induction false} CenteringCanEnterZone()
    ensures var site := Site(100.0, 100.0, [Probe(40.0, 45.0, 5.0, 10.0)]);
      var mains := [Process("A", 10.0, 10.0, None, None, None), Process("B", 10.0, 10.0, None, None, None)];
      SequentialLayout(site, mains, [false, false], [Right]).Some? &&
      !Clear(site.zones, SequentialLayout(site, mains, [false, false], [Right]).value[0])
  {
    var zone := Probe(40.0, 45.0, 5.0, 10.0);
    var site := Site(100.0, 100.0, [zone]);
    var a := Process("A", 10.0, 10.0, None, None, None);
    var b := Process("B", 10.0, 10.0, None, None, None);
    var mains := [a, b];
    assert FloorDiv(100.0, 2.0) == 50.0 && FloorDiv(10.0, 2.0) == 5.0;
    var first := SequentialFirst(site, a, false);
    assert first == CreateRect(a, 45.0, 45.0, false);
    assert ValidPlacement(site, first, []);
    var q := PlaceAdjacent(b, first, Right, false);
    assert q == CreateRect(b, 55.0, 45.0, false);
    assert ValidPlacement(site, q, [first]);
    assert mains[1..] == [b] && [false, false][1..] == [false];
    assert Chain(site, first, [b], [false], [Right], 0) == Some([first]);
    assert [first][0] == first && [b][0] == b && [Right][0] == Right && [false][0] == false;
    assert [first] + [q] == [first, q];
    assert Chain(site, first, [b], [false], [Right], 1) == Some([first, q]);
    var c := [first, q];
    assert c[1..] == [q];
    assert q.x == 55.0 && q.y == 45.0 && q.w == 10.0 && q.h == 10.0;
    assert first.x == 45.0 && first.y == 45.0 && first.w == 10.0 && first.h == 10.0;
    assert MinX([q]) == 55.0 && MinY([q]) == 45.0 && MaxRight([q]) == 65.0 && MaxBottom([q]) == 55.0;
    assert MinX(c) == 45.0 && MinY(c) == 45.0 && MaxRight(c) == 65.0 && MaxBottom(c) == 55.0;
    assert FloorDiv(80.0, 2.0) == 40.0 && FloorDiv(90.0, 2.0) == 45.0;
    assert CenterOffset(c, 100.0, 100.0) == (-5.0, 0.0);
    var l := Centered(c, 100.0, 100.0);
    assert l[0] == Translate(first, -5.0, 0.0);
    assert Overlaps(l[0], zone);
    assert SequentialLayout(site, mains, [false, false], [Right]) == Finish(site, Chain(site, first, [b], [false], [Right], 1));
    assert PairwiseDisjoint(c);
    assert Finish(site, Some(c)) == Some(l);
    assert site.zones[0] == zone;
  }

  // ---------------------------------------------------------------- the baseline's exhaustive generation

  /** The layouts one rotation vector and one direction vector contribute: the placed layout, if any. */
  function Attempted(site: Site, mains: seq<Process>, rots: seq<bool>, dirs: seq<Direction>): seq<seq<Rect>>
  {
    if mains != [] && |rots| >= |mains| && |dirs| >= |mains| - 1 then
      match SequentialLayout(site, mains, rots, dirs)
      case Some(l) => [l]
      case None => []
    else []
  }

  function SequentialAttempt(site: Site, mains: seq<Process>): (seq<bool>, seq<Direction>) -> seq<seq<Rect>>
  {
    (rots: seq<bool>, dirs: seq<Direction>) => Attempted(site, mains, rots, dirs)
  }

  /** One iteration of the generation loop: the layout placed for these vectors, if any. */
  method TryPlacement(site: Site, mains: seq<Process>, rots: seq<bool>, dirs: seq<Direction>) returns (placed: seq<seq<Rect>>)
    requires mains != [] && |rots| == |mains| && |dirs| == |mains| - 1
    ensures placed == SequentialAttempt(site, mains)(rots, dirs)
    ensures |placed| <= 1
  {
    var l := PlaceSequentially(site, mains, rots, dirs);
    if l.Some? {
      placed := [l.value];
    } else {
      placed := [];
    }
  }

  /**
   * The layouts of the baseline generation: every rotation vector of n flags crossed with every
   * direction vector of n - 1 sides, in that loop order, keeping the layouts that place; none
   * without main processes.
   */
  function MainLayouts(site: Site, mains: seq<Process>): seq<seq<Rect>>
  {
    if mains == [] then [] else Product(RotationVectors(|mains|), DirectionVectors(|mains| - 1), SequentialAttempt(site, mains))
  }

  /** The placements the baseline generation tries for n main processes: 2^n * 4^(n - 1), none for n = 0. */
  function AttemptCount(n: nat): nat
  {
    if n == 0 then 0 else Pow(2, n) * Pow(4, n - 1)
  }

  /**
   * Baseline `generate_main_layout_combinations`; `attempted` counts the placements tried (the
   * progress counter).
   */
  method GenerateMainLayoutCombinations(site: Site, mains: seq<Process>) returns (layouts: seq<seq<Rect>>, attempted: nat)
    ensures layouts == MainLayouts(site, mains)
    ensures attempted == AttemptCount(|mains|)
  {
    if mains == [] {
      return [], 0;
    }
    var rcs := RotationCombinations(|mains|);
    var dcs := DirectionCombinations(|mains| - 1);
    layouts, attempted := AttemptAll(site, mains, rcs, dcs);
    assert |rcs| * |dcs| == Pow(2, |mains|) * Pow(4, |mains| - 1);
  }

  /** The outer loop of the generation: every rotation vector, each against every direction vector. */
  method AttemptAll(site: Site, mains: seq<Process>, rcs: seq<seq<bool>>, dcs: seq<seq<Direction>>) returns (layouts: seq<seq<Rect>>, attempted: nat)
    requires mains != []
    requires forall i :: 0 <= i < |rcs| ==> |rcs[i]| == |mains|
    requires forall j :: 0 <= j < |dcs| ==> |dcs[j]| == |mains| - 1
    ensures layouts == Product(rcs, dcs, SequentialAttempt(site, mains))
    ensures attempted == |rcs| * |dcs|
  {
    var f := SequentialAttempt(site, mains);
    layouts, attempted := [], 0;
    for i := 0 to |rcs|
      invariant layouts == ProductRows(rcs, dcs, i, f)
      invariant attempted == i * |dcs|
    {
      var row := AttemptRow(site, mains, rcs[i], dcs);
      layouts := layouts + row;
      attempted := attempted + |dcs|;
      assert i * |dcs| + |dcs| == (i + 1) * |dcs| by {
        MulSucc(i, |dcs|);
      }
    }
  }

  lemma {:induction false} MulSucc(i: nat, d: nat)
    ensures i * d + d == (i + 1) * d
  {
  }

  /** The inner loop of the generation: one rotation vector against every direction vector. */
  method AttemptRow(site: Site, mains: seq<Process>, rots: seq<bool>, dcs: seq<seq<Direction>>) returns (row: seq<seq<Rect>>)
    requires mains != [] && |rots| == |mains|
    requires forall j :: 0 <= j < |dcs| ==> |dcs[j]| == |mains| - 1
    ensures row == Across(rots, dcs, |dcs|, SequentialAttempt(site, mains))
  {
    row := [];
    for j := 0 to |dcs|
      invariant row == Across(rots, dcs, j, SequentialAttempt(site, mains))
    {
      var placed := TryPlacement(site, mains, rots, dcs[j]);
      row := row + placed;
    }
  }

  /** Every generated layout is the placement of some rotation vector and direction vector, and is overlap-free. */
  lemma {:induction false} GeneratedLayoutsSound(site: Site, mains: seq<Process>, l: seq<Rect>) returns (rots: seq<bool>, dirs: seq<Direction>)
    requires l in MainLayouts(site, mains)
    ensures |rots| == |mains| && |dirs| == |mains| - 1 && SequentialLayout(site, mains, rots, dirs) == Some(l)
    ensures |l| == |mains| && PairwiseDisjoint(l)
  {
    var n := |mains|;
    var rvs, dvs, f := RotationVectors(n), DirectionVectors(n - 1), SequentialAttempt(site, mains);
    var a, b := ProductWitness(rvs, dvs, f, l);
    rots, dirs := rvs[a], dvs[b];
    assert |rots| == n && |dirs| == n - 1;
    AttemptedSome(site, mains, rots, dirs, l);
    FinishShape(site, SequentialFirst(site, mains[0], rots[0]), mains[1..], rots[1..], dirs, n - 1, l);
  }

  lemma {:induction false} AttemptedSome(site: Site, mains: seq<Process>, rots: seq<bool>, dirs: seq<Direction>, l: seq<Rect>)
    requires l in SequentialAttempt(site, mains)(rots, dirs)
    ensures SequentialLayout(site, mains, rots, dirs) == Some(l)
  {
    assert l in Attempted(site, mains, rots, dirs);
  }

  /** Every layout that some rotation vector and direction vector place is generated. */
  lemma {:induction false} GeneratedLayoutsComplete(site: Site, mains: seq<Process>, rots: seq<bool>, dirs: seq<Direction>)
    requires mains != [] && |rots| == |mains| && |dirs| == |mains| - 1
    requires SequentialLayout(site, mains, rots, dirs).Some?
    ensures SequentialLayout(site, mains, rots, dirs).value in MainLayouts(site, mains)
  {
    var n := |mains|;
    var rvs, dvs, f := RotationVectors(n), DirectionVectors(n - 1), SequentialAttempt(site, mains);
    var l := SequentialLayout(site, mains, rots, dirs).value;
    BitsOfValue(rots);
    DigitsOfValue(dirs);
    var a, b := BitsValue(rots), DigitsValue(dirs);
    assert rvs[a] == rots && dvs[b] == dirs;
    assert l in f(rvs[a], dvs[b]);
    ProductMember(rvs, dvs, f, l);
  }

  // ---------------------------------------------------------------- sub processes: ordering

  /** An adjacency-weight entry: `{}` (which Python's `or` passes over), or a rating with perhaps a preferred gap. */
  datatype WeightInfo = NoInfo | Info(weight: int, gap: Option<real>)

  type Weights = map<string, WeightInfo>

  /** The key `f"{a}-{b}"` of the pair (a, b). */
  function PairKey(a: string, b: string): string
  {
    a + "-" + b
  }

  /** `adjacency_weights.get(key, {}).get('weight', 2)`. */
  function WeightOf(aw: Weights, key: string): int
  {
    if key in aw && aw[key].Info? then aw[key].weight else 2
  }

  function MaxInt(a: int, b: int): int { if a >= b then a else b }

  /**
   * `get_max_adjacency_weight` over the first rectangles of `mains`: the largest rating between
   * the sub process and any of them, looked up under both key orders, and never below 0.
   */
  function MaxAdjacencyWeight(aw: Weights, sub: Process, mains: seq<Rect>): (w: int)
    ensures w >= 0
    ensures forall k :: 0 <= k < |mains| ==>
      WeightOf(aw, PairKey(sub.id, mains[k].id)) <= w && WeightOf(aw, PairKey(mains[k].id, sub.id)) <= w
  {
    if mains == [] then 0
    else
      var m := mains[|mains| - 1];
      MaxInt(MaxInt(MaxAdjacencyWeight(aw, sub, mains[..|mains| - 1]), WeightOf(aw, PairKey(sub.id, m.id))), WeightOf(aw, PairKey(m.id, sub.id)))
  }

  /** The maximum is attained: it is 0 or the rating of some pair in one of the key orders. */
  lemma {:induction false} MaxAdjacencyWeightAttained(aw: Weights, sub: Process, mains: seq<Rect>)
    ensures var w := MaxAdjacencyWeight(aw, sub, mains);
      w == 0 || exists k :: 0 <= k < |mains| && (w == WeightOf(aw, PairKey(sub.id, mains[k].id)) || w == WeightOf(aw, PairKey(mains[k].id, sub.id)))
  {
    if mains != [] {
      var init := mains[..|mains| - 1];
      MaxAdjacencyWeightAttained(aw, sub, init);
      var w0 := MaxAdjacencyWeight(aw, sub, init);
      if w0 != 0 && w0 == MaxAdjacencyWeight(aw, sub, mains) {
        var k :| 0 <= k < |init| && (w0 == WeightOf(aw, PairKey(sub.id, init[k].id)) || w0 == WeightOf(aw, PairKey(init[k].id, sub.id)));
        assert init[k] == mains[k];
      }
    }
  }

  /** The loop of `get_max_adjacency_weight`: `max_weight = max(max_weight, weight1, weight2)` per main rectangle. */
  method GetMaxAdjacencyWeight(aw: Weights, sub: Process, mains: seq<Rect>) returns (w: int)
    ensures w == MaxAdjacencyWeight(aw, sub, mains)
  {
    w := 0;
    for k := 0 to |mains|
      invariant w == MaxAdjacencyWeight(aw, sub, mains[..k])
    {
      var w1 := WeightOf(aw, PairKey(sub.id, mains[k].id));
      var w2 := WeightOf(aw, PairKey(mains[k].id, sub.id));
      assert mains[..k + 1][..k] == mains[..k];
      w := MaxInt(MaxInt(w, w1), w2);
    }
    assert mains[..|mains|] == mains;
  }

  function SubKey(aw: Weights, mains: seq<Rect>): Process -> real
  {
    (p: Process) => MaxAdjacencyWeight(aw, p, mains) as real
  }

  /** `_sort_sub_processes_by_adjacency`: `sorted(..., reverse=True)` on the maximum rating. */
  function SortSubProcesses(subs: seq<Process>, mains: seq<Rect>, aw: Weights): seq<Process>
  {
    SortDesc(subs, SubKey(aw, mains))
  }

  /**
   * The sub processes come out as a permutation of the input in non-increasing order of their
   * maximum rating, and processes of equal rating keep their input order.
   */
  lemma {:induction false} SortSubProcessesOrder(subs: seq<Process>, mains: seq<Rect>, aw: Weights, v: real)
    ensures multiset(SortSubProcesses(subs, mains, aw)) == multiset(subs)
    ensures var s := SortSubProcesses(subs, mains, aw);
      forall i, j :: 0 <= i < j < |s| ==> MaxAdjacencyWeight(aw, s[i], mains) >= MaxAdjacencyWeight(aw, s[j], mains)
    ensures Filter(SortSubProcesses(subs, mains, aw), KeyIs(SubKey(aw, mains), v)) == Filter(subs, KeyIs(SubKey(aw, mains), v))
  {
    SortDescSorted(subs, SubKey(aw, mains));
    SortDescStable(subs, SubKey(aw, mains), v);
    var s := SortSubProcesses(subs, mains, aw);
    forall i, j | 0 <= i < j < |s|
      ensures MaxAdjacencyWeight(aw, s[i], mains) >= MaxAdjacencyWeight(aw, s[j], mains)
    {
      assert SubKey(aw, mains)(s[i]) >= SubKey(aw, mains)(s[j]);
    }
  }

  // ---------------------------------------------------------------- sub processes: scoring

  /**
   * The rating and preferred gap of a pair: `aw.get(k1) or aw.get(k2) or {'weight': 2,
   * 'preferred_gap': 100}`, the gap defaulting to 100.
   */
  function PairRating(aw: Weights, a: string, b: string): (int, real)
  {
    var k1, k2 := PairKey(a, b), PairKey(b, a);
    if k1 in aw && aw[k1].Info? then (aw[k1].weight, aw[k1].gap.GetOr(100.0))
    else if k2 in aw && aw[k2].Info? then (aw[k2].weight, aw[k2].gap.GetOr(100.0))
    else (2, 100.0)
  }

  /** What one placed rectangle adds to a candidate's score. */
  function PairScore(aw: Weights, pos: Rect, other: Rect): real
  {
    AdjacencyScore(pos, other, PairRating(aw, pos.id, other.id).0, PairRating(aw, pos.id, other.id).1)
  }

  /** `_calculate_sub_position_score` over the first n rectangles of the layout. */
  function PositionScore(aw: Weights, pos: Rect, existing: seq<Rect>, n: nat): real
    requires n <= |existing|
  {
    if n == 0 then 0.0 else PositionScore(aw, pos, existing, n - 1) + PairScore(aw, pos, existing[n - 1])
  }

  /** Short for the score against the whole layout. */
  function Score(aw: Weights, pos: Rect, existing: seq<Rect>): real
  {
    PositionScore(aw, pos, existing, |existing|)
  }

  /**
   * Each rectangle adds at most 300, so n rectangles at most 300 n; without an X (0) rating no
   * term is negative; and with no rating at all every pair is U and the score is exactly 50 n.
   */
  lemma {:induction false} PositionScoreBounds(aw: Weights, pos: Rect, existing: seq<Rect>, n: nat)
    requires n <= |existing|
    ensures PositionScore(aw, pos, existing, n) <= 300.0 * n as real
    ensures (forall k :: 0 <= k < n ==> PairRating(aw, pos.id, existing[k].id).0 != 0) ==> PositionScore(aw, pos, existing, n) >= 0.0
    ensures (forall k :: 0 <= k < n ==> PairRating(aw, pos.id, existing[k].id).0 == 2) ==> PositionScore(aw, pos, existing, n) == 50.0 * n as real
  {
    if n > 0 {
      PositionScoreBounds(aw, pos, existing, n - 1);
      var (w, g) := PairRating(aw, pos.id, existing[n - 1].id);
      var d := CenterDistance(pos, existing[n - 1]);
      assert SlpScore(w, d, g) <= 300.0;
      assert w != 0 ==> SlpScore(w, d, g) >= 0.0;
    }
  }

  /** A pair with no entry under either key order is rated U with the default gap. */
  lemma {:induction false} PairRatingDefault(aw: Weights, a: string, b: string)
    requires PairKey(a, b) !in aw && PairKey(b, a) !in aw
    ensures PairRating(aw, a, b) == (2, 100.0)
  {
  }

  /** The improved generator's score loop, which calls `calculate_adjacency_score` per rectangle. */
  method SubPositionScore(aw: Weights, pos: Rect, existing: seq<Rect>) returns (score: real)
    ensures score == Score(aw, pos, existing)
  {
    score := 0.0;
    for k := 0 to |existing|
      invariant score == PositionScore(aw, pos, existing, k)
    {
      var distance := CenterDistance(pos, existing[k]);
      var (weight, gap) := PairRating(aw, pos.id, existing[k].id);
      score := score + AdjacencyScore(pos, existing[k], weight, gap);
    }
  }

  /**
   * The baseline's score loop, with the rating tiers written out in the loop body; it computes
   * the same score as the improved generator's loop.
   */
  method InlineSubPositionScore(aw: Weights, pos: Rect, existing: seq<Rect>) returns (score: real)
    ensures score == Score(aw, pos, existing)
  {
    score := 0.0;
    for k := 0 to |existing|
      invariant score == PositionScore(aw, pos, existing, k)
    {
      var distance := CenterDistance(pos, existing[k]);
      var (weight, gap) := PairRating(aw, pos.id, existing[k].id);
      ghost var expected := SlpScore(weight, distance, gap);
      if weight == 10 {
        score := score + Max(0.0, 300.0 - Abs(distance - gap) * 3.0);
      } else if weight == 8 {
        score := score + Max(0.0, 200.0 - Abs(distance - gap) * 2.0);
      } else if weight == 6 {
        score := score + Max(0.0, 150.0 - Abs(distance - gap) * 1.5);
      } else if weight == 4 {
        score := score + Max(0.0, 100.0 - Abs(distance - gap));
      } else if weight == 2 {
        score := score + 50.0;
      } else if weight == 0 {
        if distance < gap {
          score := score - (gap - distance) * 5.0;
        } else {
          score := score + Min(distance - gap, 100.0);
        }
      }
    }
  }

  // ---------------------------------------------------------------- sub processes: candidates

  /** The eight placements against one placed rectangle: each side in order, unrotated then rotated. */
  function Beside(sub: Process, other: Rect): (Direction, bool) -> seq<Rect>
  {
    (d: Direction, rotated: bool) => [PlaceAdjacent(sub, other, d, rotated)]
  }

  function Around(sub: Process): Rect -> seq<Rect>
  {
    (other: Rect) => Product(Directions, [false, true], Beside(sub, other))
  }

  /** Python's `int(v)` on a float: truncation toward zero. */
  function Trunc(v: real): (i: int)
    ensures v >= 0.0 ==> i as real <= v < i as real + 1.0
    ensures v < 0.0 ==> i as real - 1.0 < v <= i as real
  {
    if v >= 0.0 then v.Floor else -((-v).Floor)
  }

  /**
   * A candidate grid. Both generators hard-code theirs: the baseline steps through every point
   * 0.5 apart, the improved generator through every second point 25 apart.
   */
  datatype Grid = Fine | Coarse
  {
    /** How many grid points each loop steps over. */
    function Stride(): nat { if Fine? then 1 else 2 }
  }

  /** The baseline's grid. */
  const BaselineGrid: Grid := Fine

  /** `v * grid_size`: the coordinate of grid index v. */
  function Scale(grid: Grid, v: real): real
  {
    if grid.Fine? then v * 0.5 else v * 25.0
  }

  /** `v / grid_size`: how many cells a length v spans. */
  function Cells(grid: Grid, v: real): real
  {
    if grid.Fine? then v / 0.5 else v / 25.0
  }

  /** `int((extent - size) / grid_size) + 1`, the number of grid points along one side. */
  function GridSteps(extent: real, size: real, grid: Grid): int
  {
    Trunc(Cells(grid, extent - size)) + 1
  }

  /** The grid indices `range(0, steps, stride)`. */
  function GridIndices(steps: int, stride: nat): seq<int>
    requires stride > 0
  {
    RangeFrom(0, steps - 1, stride)
  }

  /** The candidate at grid point (i, j): the process's rectangle at `(i * grid_size, j * grid_size)`. */
  function GridRect(sub: Process, rotated: bool, grid: Grid, i: int, j: int): Rect
  {
    CreateRect(sub, Scale(grid, i as real), Scale(grid, j as real), rotated)
  }

  function GridAt(sub: Process, rotated: bool, grid: Grid): (int, int) -> seq<Rect>
  {
    (i: int, j: int) => [GridRect(sub, rotated, grid, i, j)]
  }

  /** The grid candidates of one rotation, column by column. */
  function GridFor(site: Site, sub: Process, grid: Grid, rotated: bool): seq<Rect>
  {
    var w := if rotated then sub.h else sub.w;
    var h := if rotated then sub.w else sub.h;
    Product(GridIndices(GridSteps(site.width, w, grid), grid.Stride()),
            GridIndices(GridSteps(site.height, h, grid), grid.Stride()),
            GridAt(sub, rotated, grid))
  }

  function GridOf(site: Site, sub: Process, grid: Grid): bool -> seq<Rect>
  {
    (rotated: bool) => GridFor(site, sub, grid, rotated)
  }

  /** `_generate_grid_positions`: the unrotated grid followed by the rotated one. */
  function GridPositions(site: Site, sub: Process, grid: Grid): seq<Rect>
  {
    Each([false, true], 2, GridOf(site, sub, grid))
  }

  method GenerateGridPositions(site: Site, sub: Process, grid: Grid) returns (cs: seq<Rect>)
    ensures cs == GridPositions(site, sub, grid)
  {
    var flags := [false, true];
    cs := [];
    for t := 0 to 2
      invariant cs == Each(flags, t, GridOf(site, sub, grid))
    {
      var rotated := flags[t];
      var w := if rotated then sub.h else sub.w;
      var h := if rotated then sub.w else sub.h;
      var xs := GridIndices(GridSteps(site.width, w, grid), grid.Stride());
      var ys := GridIndices(GridSteps(site.height, h, grid), grid.Stride());
      var placed := CollectProduct(xs, ys, GridAt(sub, rotated, grid));
      cs := cs + placed;
    }
  }

  /** A grid index i is at most `(extent - size) / grid_size` when the size fits the extent, so the point plus the size stays inside. */
  lemma {:induction false} GridIndexFits(i: int, extent: real, size: real, grid: Grid)
    requires 0 <= i <= GridSteps(extent, size, grid) - 1
    requires size <= extent
    ensures Scale(grid, i as real) + size <= extent
  {
    assert i as real <= Cells(grid, extent - size);
  }

  /**
   * Every grid candidate is the sub process's rectangle with the asked rotation, at a
   * non-negative multiple of the grid size, and inside the site along each side the rectangle fits.
   */
  lemma {:induction false} GridForInSite(site: Site, sub: Process, grid: Grid, rotated: bool, c: Rect)
    requires c in GridFor(site, sub, grid, rotated)
    ensures c == CreateRect(sub, c.x, c.y, rotated)
    ensures c.x >= 0.0 && c.y >= 0.0
    ensures c.w <= site.width ==> Geometry.Right(c) <= site.width
    ensures c.h <= site.height ==> Geometry.Bottom(c) <= site.height
  {
    var w := if rotated then sub.h else sub.w;
    var h := if rotated then sub.w else sub.h;
    var xs := GridIndices(GridSteps(site.width, w, grid), grid.Stride());
    var ys := GridIndices(GridSteps(site.height, h, grid), grid.Stride());
    var f := GridAt(sub, rotated, grid);
    var a, b := ProductWitness(xs, ys, f, c);
    var i, j := xs[a], ys[b];
    assert 0 <= i <= GridSteps(site.width, w, grid) - 1;
    assert 0 <= j <= GridSteps(site.height, h, grid) - 1;
    GridPoint(sub, rotated, grid, i, j, c);
    GridRectInSite(site, sub, rotated, grid, i, j);
  }

  /** A grid point within the loop ranges keeps the rectangle inside the site along each side it fits. */
  lemma {:induction false} GridRectInSite(site: Site, sub: Process, rotated: bool, grid: Grid, i: int, j: int)
    requires 0 <= i <= GridSteps(site.width, if rotated then sub.h else sub.w, grid) - 1
    requires 0 <= j <= GridSteps(site.height, if rotated then sub.w else sub.h, grid) - 1
    ensures var c := GridRect(sub, rotated, grid, i, j);
      (c.w <= site.width ==> Geometry.Right(c) <= site.width) && (c.h <= site.height ==> Geometry.Bottom(c) <= site.height)
  {
    var c := GridRect(sub, rotated, grid, i, j);
    if c.w <= site.width {
      GridIndexFits(i, site.width, c.w, grid);
    }
    if c.h <= site.height {
      GridIndexFits(j, site.height, c.h, grid);
    }
  }

  /** The candidate at grid point (i, j) is the process's rectangle at `(i * grid_size, j * grid_size)`, which is not negative for i, j >= 0. */
  lemma {:induction false} GridPoint(sub: Process, rotated: bool, grid: Grid, i: int, j: int, c: Rect)
    requires i >= 0 && j >= 0
    requires c in GridAt(sub, rotated, grid)(i, j)
    ensures c == CreateRect(sub, Scale(grid, i as real), Scale(grid, j as real), rotated)
    ensures c.x >= 0.0 && c.y >= 0.0
  {
    assert GridAt(sub, rotated, grid)(i, j) == [GridRect(sub, rotated, grid, i, j)];
  }

  /** `_generate_candidate_positions`: the eight placements around each placed rectangle, then the grid. */
  function CandidatePositions(site: Site, sub: Process, existing: seq<Rect>, grid: Grid): seq<Rect>
  {
    Each(existing, |existing|, Around(sub)) + GridPositions(site, sub, grid)
  }

  method GenerateCandidatePositions(site: Site, sub: Process, existing: seq<Rect>, grid: Grid) returns (cs: seq<Rect>)
    ensures cs == CandidatePositions(site, sub, existing, grid)
  {
    cs := [];
    for k := 0 to |existing|
      invariant cs == Each(existing, k, Around(sub))
    {
      var around := CollectProduct(Directions, [false, true], Beside(sub, existing[k]));
      cs := cs + around;
    }
    var gridCandidates := GenerateGridPositions(site, sub, grid);
    cs := cs + gridCandidates;
  }

  /**
   * Every candidate is the sub process's rectangle (its id and its size, swapped iff rotated), and
   * either touches a placed rectangle on one side or is a grid candidate.
   */
  lemma {:induction false} CandidatesOfSub(site: Site, sub: Process, existing: seq<Rect>, grid: Grid, c: Rect)
    requires c in CandidatePositions(site, sub, existing, grid)
    ensures c == CreateRect(sub, c.x, c.y, c.rotated)
    ensures (exists k, d, rotated :: 0 <= k < |existing| && c == PlaceAdjacent(sub, existing[k], d, rotated)) ||
            c in GridPositions(site, sub, grid)
  {
    var adj := Each(existing, |existing|, Around(sub));
    if c in adj {
      var k := EachWitness(existing, |existing|, Around(sub), c);
      var a, b := ProductWitness(Directions, [false, true], Beside(sub, existing[k]), c);
      PlaceAdjacentTouches(sub, existing[k], Directions[a], [false, true][b]);
    } else {
      assert c in GridPositions(site, sub, grid);
      var t := EachWitness([false, true], 2, GridOf(site, sub, grid), c);
      GridForInSite(site, sub, grid, [false, true][t], c);
    }
  }

  // ---------------------------------------------------------------- sub processes: choosing and placing

  /** Among the first n candidates, the index of the first acceptable one of highest score, if any is acceptable. */
  function FirstBest<T>(cs: seq<T>, ok: T -> bool, score: T -> real, n: nat): (b: Option<nat>)
    requires n <= |cs|
    ensures b.Some? ==> b.value < n
  {
    if n == 0 then None
    else
      var prev := FirstBest(cs, ok, score, n - 1);
      if !ok(cs[n - 1]) then prev
      else match prev
        case None => Some(n - 1)
        case Some(k) => if score(cs[n - 1]) > score(cs[k]) then Some(n - 1) else prev
  }

  /**
   * The choice is empty exactly when no candidate is acceptable; otherwise the chosen candidate
   * is acceptable, scores strictly more than every acceptable candidate before it and at least as
   * much as every acceptable candidate after it.
   */
  lemma {:induction false} FirstBestSpec<T>(cs: seq<T>, ok: T -> bool, score: T -> real, n: nat)
    requires n <= |cs|
    ensures FirstBest(cs, ok, score, n).None? <==> forall k :: 0 <= k < n ==> !ok(cs[k])
    ensures var b := FirstBest(cs, ok, score, n);
      b.Some? ==>
        ok(cs[b.value]) &&
        (forall m :: 0 <= m < b.value && ok(cs[m]) ==> score(cs[m]) < score(cs[b.value])) &&
        (forall m :: b.value < m < n && ok(cs[m]) ==> score(cs[m]) <= score(cs[b.value]))
  {
    if n > 0 {
      FirstBestSpec(cs, ok, score, n - 1);
    }
  }

  /** The placement test against a fixed layout, as a predicate on candidates. */
  function ValidAgainst(site: Site, existing: seq<Rect>): Rect -> bool
  {
    (r: Rect) => ValidPlacement(site, r, existing)
  }

  /** The adjacency score against a fixed layout, as a function of the candidate. */
  function ScoreAgainst(aw: Weights, existing: seq<Rect>): Rect -> real
  {
    (r: Rect) => Score(aw, r, existing)
  }

  /** The position `_find_optimal_sub_position` returns for a list of candidates. */
  function BestPosition(site: Site, aw: Weights, existing: seq<Rect>, cs: seq<Rect>): Option<Rect>
  {
    match FirstBest(cs, ValidAgainst(site, existing), ScoreAgainst(aw, existing), |cs|)
    case None => None
    case Some(k) => Some(cs[k])
  }

  /** `_find_optimal_sub_position`: `best_score` starts at minus infinity and only a strictly higher score replaces it. */
  method FindOptimalSubPosition(site: Site, aw: Weights, sub: Process, existing: seq<Rect>, grid: Grid) returns (best: Option<Rect>)
    ensures best == BestPosition(site, aw, existing, CandidatePositions(site, sub, existing, grid))
  {
    var cs := GenerateCandidatePositions(site, sub, existing, grid);
    best := ChooseBest(site, aw, existing, cs);
  }

  /** The loop of `_find_optimal_sub_position` over the generated candidates. */
  method ChooseBest(site: Site, aw: Weights, existing: seq<Rect>, cs: seq<Rect>) returns (best: Option<Rect>)
    ensures best == BestPosition(site, aw, existing, cs)
  {
    var ok, score := ValidAgainst(site, existing), ScoreAgainst(aw, existing);
    best := None;
    var bestScore := 0.0;
    for i := 0 to |cs|
      invariant best == match FirstBest(cs, ok, score, i) case None => None case Some(k) => Some(cs[k])
      invariant FirstBest(cs, ok, score, i).Some? ==> bestScore == score(cs[FirstBest(cs, ok, score, i).value])
    {
      var valid := IsValidPlacement(site, cs[i], existing);
      assert valid == ok(cs[i]);
      if valid {
        var s := SubPositionScore(aw, cs[i], existing);
        assert s == score(cs[i]);
        if best.None? || s > bestScore {
          bestScore := s;
          best := Some(cs[i]);
        }
      }
    }
  }

  /** How a sub process's position is chosen against a layout: its best valid candidate, if any. */
  function Chooser(site: Site, aw: Weights, grid: Grid): (seq<Rect>, Process) -> Option<Rect>
  {
    (l: seq<Rect>, sub: Process) => BestPosition(site, aw, l, CandidatePositions(site, sub, l, grid))
  }

  /** One sub process tried against the layout: the chosen position is added, if there is one. */
  function PlaceSub(choose: (seq<Rect>, Process) -> Option<Rect>, l: seq<Rect>, sub: Process): seq<Rect>
  {
    match choose(l, sub)
    case None => l
    case Some(r) => l + [r]
  }

  /** The layout after the first n sub processes of `subs` have been tried, in order. */
  function PlaceSubs(choose: (seq<Rect>, Process) -> Option<Rect>, layout: seq<Rect>, subs: seq<Process>, n: nat): seq<Rect>
    requires n <= |subs|
  {
    if n == 0 then layout else PlaceSub(choose, PlaceSubs(choose, layout, subs, n - 1), subs[n - 1])
  }

  /** One iteration of the placement loop. */
  method AddSubProcess(site: Site, aw: Weights, grid: Grid, layout: seq<Rect>, sub: Process) returns (out: seq<Rect>)
    ensures out == PlaceSub(Chooser(site, aw, grid), layout, sub)
  {
    var best := FindOptimalSubPosition(site, aw, sub, layout, grid);
    assert Chooser(site, aw, grid)(layout, sub) == best;
    if best.Some? {
      out := layout + [best.value];
    } else {
      out := layout;
    }
  }

  /** `place_sub_processes_optimally`: the main layout with the sub processes added in rating order. */
  function SubLayout(site: Site, aw: Weights, grid: Grid, mainLayout: seq<Rect>, subs: seq<Process>): seq<Rect>
  {
    if subs == [] then mainLayout
    else PlaceSubs(Chooser(site, aw, grid), mainLayout, SortSubProcesses(subs, mainLayout, aw), |subs|)
  }

  method PlaceSubProcessesOptimally(site: Site, mainLayout: seq<Rect>, subs: seq<Process>, aw: Weights, grid: Grid) returns (layout: seq<Rect>)
    ensures layout == SubLayout(site, aw, grid, mainLayout, subs)
  {
    if subs == [] {
      return mainLayout;
    }
    var sorted := SortSubProcesses(subs, mainLayout, aw);
    layout := PlaceInOrder(site, aw, grid, mainLayout, sorted);
  }

  /** The main layout with the first n of the ordered sub processes placed by the baseline's chooser. */
  function PlacedFirst(site: Site, aw: Weights, grid: Grid, mainLayout: seq<Rect>, sorted: seq<Process>, n: nat): seq<Rect>
    requires n <= |sorted|
  {
    PlaceSubs(Chooser(site, aw, grid), mainLayout, sorted, n)
  }

  /** The placement loop over the already ordered sub processes. */
  method PlaceInOrder(site: Site, aw: Weights, grid: Grid, mainLayout: seq<Rect>, sorted: seq<Process>) returns (layout: seq<Rect>)
    ensures layout == PlacedFirst(site, aw, grid, mainLayout, sorted, |sorted|)
  {
    layout := mainLayout;
    for i := 0 to |sorted|
      invariant layout == PlacedFirst(site, aw, grid, mainLayout, sorted, i)
    {
      layout := AddSubProcess(site, aw, grid, layout, sorted[i]);
    }
  }

  /**
   * Placing sub processes keeps the given layout as a prefix and adds at most one rectangle per
   * sub process; each added rectangle is one of that process's candidates, valid against
   * everything before it.
   */
  lemma {:induction false} PlaceSubsGrows(site: Site, choose: (seq<Rect>, Process) -> Option<Rect>, layout: seq<Rect>, subs: seq<Process>, n: nat)
    requires n <= |subs|
    requires forall l, sub :: choose(l, sub).Some? ==> ValidPlacement(site, choose(l, sub).value, l)
    ensures var l := PlaceSubs(choose, layout, subs, n);
      |layout| <= |l| <= |layout| + n && l[..|layout|] == layout &&
      forall k :: |layout| <= k < |l| ==> ValidPlacement(site, l[k], l[..k])
  {
    if n > 0 {
      PlaceSubsGrows(site, choose, layout, subs, n - 1);
      var l := PlaceSubs(choose, layout, subs, n - 1);
      match choose(l, subs[n - 1])
      case None =>
      case Some(r) =>
        ExtendValid(site, layout, l, r);
    }
  }

  /** Every position the baseline chooses passes the placement test against the layout it extends. */
  lemma {:induction false} ChooserValid(site: Site, aw: Weights, grid: Grid)
    ensures var choose := Chooser(site, aw, grid);
      forall l, sub :: choose(l, sub).Some? ==> ValidPlacement(site, choose(l, sub).value, l)
  {
    var choose := Chooser(site, aw, grid);
    forall l, sub | choose(l, sub).Some?
      ensures ValidPlacement(site, choose(l, sub).value, l)
    {
      BestPositionValid(site, aw, l, CandidatePositions(site, sub, l, grid));
    }
  }

  /** The chosen position, if any, passes the placement test. */
  lemma {:induction false} BestPositionValid(site: Site, aw: Weights, existing: seq<Rect>, cs: seq<Rect>)
    ensures BestPosition(site, aw, existing, cs).Some? ==> ValidPlacement(site, BestPosition(site, aw, existing, cs).value, existing)
  {
    FirstBestSpec(cs, ValidAgainst(site, existing), ScoreAgainst(aw, existing), |cs|);
  }

  lemma {:induction false} ExtendValid(site: Site, layout: seq<Rect>, l: seq<Rect>, r: Rect)
    requires |layout| <= |l| && l[..|layout|] == layout
    requires forall k :: |layout| <= k < |l| ==> ValidPlacement(site, l[k], l[..k])
    requires ValidPlacement(site, r, l)
    ensures var l2 := l + [r];
      l2[..|layout|] == layout && forall k :: |layout| <= k < |l2| ==> ValidPlacement(site, l2[k], l2[..k])
  {
    var l2 := l + [r];
    assert l2[..|l|] == l;
    assert l2[..|layout|] == l[..|layout|];
    forall k | |layout| <= k < |l2|
      ensures ValidPlacement(site, l2[k], l2[..k])
    {
      if k < |l| {
        assert l2[..k] == l[..k];
      }
    }
  }

  /** A layout extended by valid placements stays overlap-free and its added rectangles are clear of the zones. */
  lemma {:induction false} ValidExtension(site: Site, prefix: nat, l: seq<Rect>)
    requires prefix <= |l| && PairwiseDisjoint(l[..prefix])
    requires forall k :: prefix <= k < |l| ==> ValidPlacement(site, l[k], l[..k])
    ensures PairwiseDisjoint(l)
    ensures forall k :: prefix <= k < |l| ==> Clear(site.zones, l[k])
    decreases |l|
  {
    if |l| > prefix {
      var init := l[..|l| - 1];
      assert init[..prefix] == l[..prefix];
      forall k | prefix <= k < |init|
        ensures ValidPlacement(site, init[k], init[..k])
      {
        assert init[..k] == l[..k];
      }
      ValidExtension(site, prefix, init);
      var last := l[|l| - 1];
      assert ValidPlacement(site, last, init);
      forall a, b | 0 <= a < b < |l|
        ensures !Overlaps(l[a], l[b])
      {
        if b == |l| - 1 {
          assert !Overlaps(last, init[a]);
          OverlapsSymmetric(last, init[a]);
        } else {
          assert l[a] == init[a] && l[b] == init[b];
        }
      }
    } else {
      assert l[..prefix] == l;
    }
  }

  /**
   * With a chooser that only picks valid placements, the rectangles the placement loop adds are
   * clear of every fixed zone, and an overlap-free main layout stays overlap-free.
   */
  lemma {:induction false} PlaceSubsSound(site: Site, choose: (seq<Rect>, Process) -> Option<Rect>, mainLayout: seq<Rect>, sorted: seq<Process>)
    requires forall l, sub :: choose(l, sub).Some? ==> ValidPlacement(site, choose(l, sub).value, l)
    ensures var l := PlaceSubs(choose, mainLayout, sorted, |sorted|);
      forall k :: |mainLayout| <= k < |l| ==> Clear(site.zones, l[k])
    ensures PairwiseDisjoint(mainLayout) ==> PairwiseDisjoint(PlaceSubs(choose, mainLayout, sorted, |sorted|))
  {
    var l := PlaceSubs(choose, mainLayout, sorted, |sorted|);
    PlaceSubsGrows(site, choose, mainLayout, sorted, |sorted|);
    forall k | |mainLayout| <= k < |l|
      ensures Clear(site.zones, l[k])
    {
      assert ValidPlacement(site, l[k], l[..k]);
    }
    if PairwiseDisjoint(mainLayout) {
      ValidExtension(site, |mainLayout|, l);
    }
  }

  // ---------------------------------------------------------------- direction and contact between two rectangles

  /**
   * `_calculate_direction`: the side of r1 on which r2's centre lies, along the axis of the larger
   * centre offset; a tie goes to the vertical axis, and coinciding centres read as top.
   */
  function CalcDirection(r1: Rect, r2: Rect): Direction
  {
    var dx := CenterX(r2) - CenterX(r1);
    var dy := CenterY(r2) - CenterY(r1);
    if Abs(dx) > Abs(dy) then (if dx > 0.0 then Right else Left)
    else (if dy > 0.0 then Bottom else Top)
  }

  function Opposite(d: Direction): Direction
  {
    match d
    case Bottom => Top
    case Top => Bottom
    case Right => Left
    case Left => Right
  }

  /** Seen from the other rectangle the direction is the opposite one, exactly when the centres differ. */
  lemma {:induction false} CalcDirectionSwap(r1: Rect, r2: Rect)
    ensures CalcDirection(r2, r1) == Opposite(CalcDirection(r1, r2)) <==>
      CenterX(r1) != CenterX(r2) || CenterY(r1) != CenterY(r2)
  {
  }

  /**
   * When a w x h rectangle sits on side d of `reference` as `_place_adjacent_process` puts it, the
   * direction of the pair reads as d again exactly when the sizes are this close.
   */
  predicate ReadsBack(d: Direction, reference: Rect, w: real, h: real)
  {
    match d
    case Bottom => Abs(w - reference.w) <= h + reference.h
    case Top => Abs(w - reference.w) <= h + reference.h
    case Right => Abs(h - reference.h) < w + reference.w
    case Left => Abs(h - reference.h) < w + reference.w
  }

  /**
   * For rectangles of positive size the computed direction of a placed pair is the side it was
   * placed on if and only if the sizes satisfy `ReadsBack`: a small rectangle under a much wider
   * one reads as left or right.
   */
  lemma {:induction false} DirectionOfPlacement(p: Process, reference: Rect, d: Direction, rotated: bool)
    requires PositiveSize(reference) && p.w > 0.0 && p.h > 0.0
    ensures var r := PlaceAdjacent(p, reference, d, rotated);
      CalcDirection(reference, r) == d <==> ReadsBack(d, reference, r.w, r.h)
  {
    var r := PlaceAdjacent(p, reference, d, rotated);
    PlaceAdjacentTouches(p, reference, d, rotated);
    var dx := CenterX(r) - CenterX(reference);
    var dy := CenterY(r) - CenterY(reference);
    match d
    case Bottom =>
      assert dx == (r.w - reference.w) / 2.0 && dy == (r.h + reference.h) / 2.0;
    case Top =>
      assert dx == (r.w - reference.w) / 2.0 && dy == -(r.h + reference.h) / 2.0;
    case Right =>
      assert dx == (r.w + reference.w) / 2.0 && dy == (r.h - reference.h) / 2.0;
    case Left =>
      assert dx == -(r.w + reference.w) / 2.0 && dy == (r.h - reference.h) / 2.0;
  }

  /** `_calculate_contact_length`: the longer of the two overlaps of the projections, never negative. */
  function ContactLength(r1: Rect, r2: Rect): (c: real)
    ensures c >= 0.0
    ensures c == 0.0 || c == IntersectionWidth(r1, r2) || c == IntersectionHeight(r1, r2)
  {
    Max(Max(0.0, IntersectionWidth(r1, r2)), Max(0.0, IntersectionHeight(r1, r2)))
  }

  lemma {:induction false} ContactLengthSymmetric(r1: Rect, r2: Rect)
    ensures ContactLength(r1, r2) == ContactLength(r2, r1)
  {
  }

  /**
   * A rectangle placed against a reference touches it along the shorter of the two facing sides:
   * the widths for bottom and top, the heights for right and left.
   */
  lemma {:induction false} ContactOfPlacement(p: Process, reference: Rect, d: Direction, rotated: bool)
    requires NonNegativeSize(reference) && p.w >= 0.0 && p.h >= 0.0
    ensures var r := PlaceAdjacent(p, reference, d, rotated);
      ContactLength(reference, r) == if d == Bottom || d == Top then Min(r.w, reference.w) else Min(r.h, reference.h)
  {
    PlaceAdjacentTouches(p, reference, d, rotated);
  }

  // ---------------------------------------------------------------- the layout code

  function RotationCode(r: Rect): string
  {
    if r.rotated then "R" else "O"
  }

  /** The letters of the code: a bottom, b right, c top, d left. */
  function DirectionCode(d: Direction): string
  {
    match d
    case Bottom => "a"
    case Right => "b"
    case Top => "c"
    case Left => "d"
  }

  /** The code of the first main process: its id and rotation letter. */
  function HeadCode(r: Rect): string
  {
    r.id + RotationCode(r)
  }

  /** One link of the code: the side of `cur` seen from `prev`, the contact length as `show` prints it, and `cur`. */
  function LinkCode(prev: Rect, cur: Rect, show: real -> string): string
  {
    DirectionCode(CalcDirection(prev, cur)) + "(" + show(ContactLength(prev, cur)) + ")-" + HeadCode(cur)
  }

  /** The first n code parts of the ordered main processes. */
  function CodeParts(ms: seq<Rect>, n: nat, show: real -> string): (parts: seq<string>)
    requires 1 <= n <= |ms|
    ensures |parts| == n && parts[0] == HeadCode(ms[0])
    ensures forall k :: 1 <= k < n ==> parts[k] == LinkCode(ms[k - 1], ms[k], show)
  {
    if n == 1 then [HeadCode(ms[0])] else CodeParts(ms, n - 1, show) + [LinkCode(ms[n - 2], ms[n - 1], show)]
  }

  function IsMain(r: Rect): bool
  {
    r.kind == Main
  }

  /** `main_process_sequence` with 999 for a rectangle that carries none. */
  function SequenceOf(r: Rect): int
  {
    r.sequence.GetOr(999)
  }

  /** The ascending sort on the sequence number is the stable descending sort on its negation. */
  function SequenceKey(r: Rect): real
  {
    -(SequenceOf(r) as real)
  }

  /** The main processes of a layout, ordered by sequence number, ties in layout order. */
  function MainsInOrder(layout: seq<Rect>): seq<Rect>
  {
    SortDesc(Filter(layout, IsMain), SequenceKey)
  }

  /**
   * `generate_layout_code`: "" for an empty layout, "NO_MAIN_PROCESSES" when it holds no main
   * process, otherwise the head code of the first main process followed by one link per further
   * one, joined by dashes (the form AO-b(50)-BR-c(30)-CO). `show` is Python's number formatting.
   */
  function LayoutCode(layout: seq<Rect>, show: real -> string): string
  {
    if layout == [] then ""
    else
      var ms := MainsInOrder(layout);
      if ms == [] then "NO_MAIN_PROCESSES" else Join(CodeParts(ms, |ms|, show), "-")
  }

  method GenerateLayoutCode(layout: seq<Rect>, show: real -> string) returns (code: string)
    ensures code == LayoutCode(layout, show)
  {
    if layout == [] {
      return "";
    }
    var mains := Filter(layout, IsMain);
    if mains == [] {
      return "NO_MAIN_PROCESSES";
    }
    var ms := SortDesc(mains, SequenceKey);
    var parts := [HeadCode(ms[0])];
    for i := 1 to |ms|
      invariant parts == CodeParts(ms, i, show)
    {
      parts := parts + [LinkCode(ms[i - 1], ms[i], show)];
    }
    code := Join(parts, "-");
  }

  /**
   * The ordered main processes are exactly the layout's main processes, with their multiplicities,
   * in non-decreasing sequence order, and of equal sequence number in layout order.
   */
  lemma {:induction false} MainsInOrderSpec(layout: seq<Rect>)
    ensures multiset(MainsInOrder(layout)) == multiset(Filter(layout, IsMain))
    ensures var ms := MainsInOrder(layout);
      forall i, j :: 0 <= i < j < |ms| ==> SequenceOf(ms[i]) <= SequenceOf(ms[j])
    ensures forall v :: Filter(MainsInOrder(layout), KeyIs(SequenceKey, v)) == Filter(Filter(layout, IsMain), KeyIs(SequenceKey, v))
    ensures forall r :: r in MainsInOrder(layout) <==> r in layout && r.kind == Main
  {
    var mains := Filter(layout, IsMain);
    SortDescSorted(mains, SequenceKey);
    forall r
      ensures r in MainsInOrder(layout) <==> r in layout && r.kind == Main
    {
      FilterMember(layout, IsMain, r);
    }
    forall v
      ensures Filter(MainsInOrder(layout), KeyIs(SequenceKey, v)) == Filter(mains, KeyIs(SequenceKey, v))
    {
      SortDescStable(mains, SequenceKey, v);
    }
  }

  /** With at least one main process the code starts with the first one's id and rotation letter and ends with the last one's rotation letter. */
  lemma {:induction false} LayoutCodeEnds(layout: seq<Rect>, show: real -> string)
    requires MainsInOrder(layout) != []
    ensures var ms, code := MainsInOrder(layout), LayoutCode(layout, show);
      |HeadCode(ms[0])| <= |code| && code[..|HeadCode(ms[0])|] == HeadCode(ms[0]) &&
      code[|code| - 1] == RotationCode(ms[|ms| - 1])[0]
  {
    var ms := MainsInOrder(layout);
    assert layout != [];
    var parts := CodeParts(ms, |ms|, show);
    assert LayoutCode(layout, show) == Join(parts, "-");
    JoinStarts(parts, "-");
    JoinFinishes(parts, "-");
    var last := parts[|parts| - 1];
    assert last[|last| - 1] == RotationCode(ms[|ms| - 1])[0];
  }

  /**
   * The code is empty exactly for the empty layout and "NO_MAIN_PROCESSES" exactly for a
   * non-empty layout without main processes.
   */
  lemma {:induction false} LayoutCodeCases(layout: seq<Rect>, show: real -> string)
    ensures LayoutCode(layout, show) == "" <==> layout == []
    ensures LayoutCode(layout, show) == "NO_MAIN_PROCESSES" <==>
      layout != [] && forall k :: 0 <= k < |layout| ==> layout[k].kind != Main
  {
    NoMains(layout);
    if MainsInOrder(layout) != [] {
      LayoutCodeEnds(layout, show);
      var code := LayoutCode(layout, show);
      assert code[|code| - 1] == 'O' || code[|code| - 1] == 'R';
      assert "NO_MAIN_PROCESSES"[16] == 'S';
    }
  }

  /** There is no main process to order exactly when no rectangle of the layout is a main process. */
  lemma {:induction false} NoMains(layout: seq<Rect>)
    ensures MainsInOrder(layout) == [] <==> forall k :: 0 <= k < |layout| ==> layout[k].kind != Main
  {
    var mains := Filter(layout, IsMain);
    assert |MainsInOrder(layout)| == |mains|;
    forall k | 0 <= k < |layout|
      ensures layout[k].kind == Main ==> layout[k] in mains
    {
      FilterMember(layout, IsMain, layout[k]);
    }
    if mains != [] {
      FilterMember(layout, IsMain, mains[0]);
    }
  }
}
