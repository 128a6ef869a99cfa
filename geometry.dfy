/**
 * The geometry kernel of the layout engine: axis-aligned rectangles on a site whose origin is
 * the top-left corner (y grows downwards), and the overlap, distance, bounding-box, utilisation
 * and closeness-rating computations every other part calls.
 */
module Geometry {
  import opened Wrappers
  import opened Collect

  /** `building_type` of a space; `Unset` for a zone record that carries none. */
  datatype Kind = Main | Sub | Fixed | Unset

  /** A placed rectangle (a process, a fixed zone or a probe rectangle). */
  datatype Rect = Rect(id: string, x: real, y: real, w: real, h: real, rotated: bool,
                       kind: Kind, sequence: Option<int>, name: Option<string>)

  /** A bounding box as `get_rectangle_bounds` returns it. */
  datatype Box = Box(x: real, y: real, w: real, h: real)

  function Min(a: real, b: real): real { if a <= b then a else b }
  function Max(a: real, b: real): real { if a >= b then a else b }
  function Abs(a: real): real { if a < 0.0 then -a else a }

  /** Python's floor division `a // b` on numbers. */
  function FloorDiv(a: real, b: real): (q: real)
    requires b > 0.0
    ensures q <= a / b < q + 1.0
  {
    (a / b).Floor as real
  }

  /** `get('name', '')`: the rectangle's name, empty when it has none. */
  function NameOf(r: Rect): string { r.name.GetOr("") }

  function Right(r: Rect): real { r.x + r.w }
  function Bottom(r: Rect): real { r.y + r.h }
  function Area(r: Rect): real { r.w * r.h }

  /** A rectangle with only a position and a size, as the engine builds for probing a grid point. */
  function Probe(x: real, y: real, w: real, h: real): Rect
  {
    Rect("", x, y, w, h, false, Unset, None, None)
  }

  // ---------------------------------------------------------------- overlap

  /** Half-open overlap: separated or merely touching rectangles do not overlap. */
  predicate Overlaps(a: Rect, b: Rect)
  {
    !(Right(a) <= b.x || Right(b) <= a.x || Bottom(a) <= b.y || Bottom(b) <= a.y)
  }

  lemma {:induction false} OverlapsSymmetric(a: Rect, b: Rect)
    ensures Overlaps(a, b) == Overlaps(b, a)
  {
  }

  lemma {:induction false} TouchingDoesNotOverlap(a: Rect, b: Rect)
    requires Right(a) == b.x || Right(b) == a.x || Bottom(a) == b.y || Bottom(b) == a.y
    ensures !Overlaps(a, b)
  {
  }

  predicate StrictlyInside(px: real, py: real, r: Rect)
  {
    r.x < px < Right(r) && r.y < py < Bottom(r)
  }

  /**
   * For rectangles of positive size the overlap test agrees with its geometric meaning:
   * the open interiors have a common point.
   */
  lemma {:induction false} OverlapsIffCommonInteriorPoint(a: Rect, b: Rect)
    requires a.w > 0.0 && a.h > 0.0 && b.w > 0.0 && b.h > 0.0
    ensures Overlaps(a, b) <==> exists px, py :: StrictlyInside(px, py, a) && StrictlyInside(px, py, b)
  {
    if Overlaps(a, b) {
      var px := (Max(a.x, b.x) + Min(Right(a), Right(b))) / 2.0;
      var py := (Max(a.y, b.y) + Min(Bottom(a), Bottom(b))) / 2.0;
      assert StrictlyInside(px, py, a) && StrictlyInside(px, py, b);
    }
  }

  function IntersectionWidth(a: Rect, b: Rect): real { Min(Right(a), Right(b)) - Max(a.x, b.x) }
  function IntersectionHeight(a: Rect, b: Rect): real { Min(Bottom(a), Bottom(b)) - Max(a.y, b.y) }

  predicate PositiveSize(r: Rect) { r.w > 0.0 && r.h > 0.0 }

  predicate NonNegativeSize(r: Rect) { r.w >= 0.0 && r.h >= 0.0 }

  /**
   * `calculate_overlap_area`: 0 unless the rectangles overlap, else the intersection's area
   * (clamped at 0), which is positive for rectangles of positive size.
   */
  function OverlapArea(a: Rect, b: Rect): (area: real)
    ensures area >= 0.0
    ensures !Overlaps(a, b) ==> area == 0.0
    ensures Overlaps(a, b) && PositiveSize(a) && PositiveSize(b) ==>
      area == IntersectionWidth(a, b) * IntersectionHeight(a, b) && area > 0.0
  {
    if !Overlaps(a, b) then 0.0
    else
      var iw, ih := IntersectionWidth(a, b), IntersectionHeight(a, b);
      assert PositiveSize(a) && PositiveSize(b) ==> iw > 0.0 && ih > 0.0 && iw * ih > 0.0;
      Max(0.0, iw * ih)
  }

  lemma {:induction false} OverlapAreaSymmetric(a: Rect, b: Rect)
    ensures OverlapArea(a, b) == OverlapArea(b, a)
  {
  }

  // ---------------------------------------------------------------- distances

  /**
   * `math.sqrt(a*a + b*b)` for the two legs a, b >= 0 of a right triangle. Dafny has no square
   * root, so its value is left unspecified; `Hypot` then clamps it to the bounds every such
   * square root obeys.
   */
  const Root: (real, real) -> real

  /** sqrt(dx*dx + dy*dy): exact when one of the two is 0, bounded otherwise. */
  function Hypot(dx: real, dy: real): (d: real)
    ensures Max(Abs(dx), Abs(dy)) <= d <= Abs(dx) + Abs(dy)
  {
    var lo, hi := Max(Abs(dx), Abs(dy)), Abs(dx) + Abs(dy);
    var r := Abs(Root(Abs(dx), Abs(dy)));
    if r < lo then lo else if r > hi then hi else r
  }

  lemma {:induction false} HypotZero(dx: real, dy: real)
    ensures Hypot(dx, dy) == 0.0 <==> dx == 0.0 && dy == 0.0
    ensures dx == 0.0 ==> Hypot(dx, dy) == Abs(dy)
    ensures dy == 0.0 ==> Hypot(dx, dy) == Abs(dx)
  {
  }

  lemma {:induction false} HypotSymmetric(dx: real, dy: real)
    ensures Hypot(-dx, -dy) == Hypot(dx, dy)
  {
    assert Abs(-dx) == Abs(dx) && Abs(-dy) == Abs(dy);
  }

  function CenterX(r: Rect): real { r.x + r.w / 2.0 }
  function CenterY(r: Rect): real { r.y + r.h / 2.0 }

  /** `calculate_center_distance`: Euclidean distance of the two centres. */
  function CenterDistance(a: Rect, b: Rect): (d: real)
    ensures d >= 0.0
    ensures d == 0.0 <==> CenterX(a) == CenterX(b) && CenterY(a) == CenterY(b)
    ensures d >= Abs(CenterX(b) - CenterX(a)) && d >= Abs(CenterY(b) - CenterY(a))
  {
    Hypot(CenterX(b) - CenterX(a), CenterY(b) - CenterY(a))
  }

  lemma {:induction false} CenterDistanceSymmetric(a: Rect, b: Rect)
    ensures CenterDistance(a, b) == CenterDistance(b, a)
  {
    HypotSymmetric(CenterX(b) - CenterX(a), CenterY(b) - CenterY(a));
    assert CenterX(a) - CenterX(b) == -(CenterX(b) - CenterX(a));
    assert CenterY(a) - CenterY(b) == -(CenterY(b) - CenterY(a));
  }

  /** Horizontal gap between the rectangles; 0 when their x-extents meet. */
  function GapX(a: Rect, b: Rect): (g: real)
    ensures g >= 0.0
    ensures g > 0.0 <==> Right(a) < b.x || Right(b) < a.x
  {
    if Right(a) < b.x then b.x - Right(a) else if Right(b) < a.x then a.x - Right(b) else 0.0
  }

  /** Vertical gap between the rectangles; 0 when their y-extents meet. */
  function GapY(a: Rect, b: Rect): (g: real)
    ensures g >= 0.0
    ensures g > 0.0 <==> Bottom(a) < b.y || Bottom(b) < a.y
  {
    if Bottom(a) < b.y then b.y - Bottom(a) else if Bottom(b) < a.y then a.y - Bottom(b) else 0.0
  }

  /**
   * `calculate_edge_distance`: 0 for overlapping rectangles, otherwise sqrt of the squared
   * per-axis gaps, so rectangles touching along an edge or at a corner are at distance 0.
   */
  function EdgeDistance(a: Rect, b: Rect): (d: real)
    ensures d >= 0.0
    ensures Overlaps(a, b) ==> d == 0.0
    ensures !Overlaps(a, b) ==> d == Hypot(GapX(a, b), GapY(a, b))
    ensures d == 0.0 <==> Overlaps(a, b) || (GapX(a, b) == 0.0 && GapY(a, b) == 0.0)
    ensures GapX(a, b) <= d && GapY(a, b) <= d
  {
    if Overlaps(a, b) then 0.0 else Hypot(GapX(a, b), GapY(a, b))
  }

  lemma {:induction false} EdgeDistanceSymmetric(a: Rect, b: Rect)
    requires NonNegativeSize(a) && NonNegativeSize(b)
    ensures EdgeDistance(a, b) == EdgeDistance(b, a)
  {
    assert GapX(a, b) == GapX(b, a) && GapY(a, b) == GapY(b, a);
  }

  /** Two rectangles side by side with a horizontal gap g and overlapping y-extents are exactly g apart. */
  lemma {:induction false} EdgeDistanceSideBySide(a: Rect, b: Rect)
    requires a.h > 0.0 && b.h > 0.0 && b.y < Bottom(a) && a.y < Bottom(b)
    ensures EdgeDistance(a, b) == GapX(a, b)
  {
  }

  // ---------------------------------------------------------------- bounds

  predicate InBounds(r: Rect, width: real, height: real)
  {
    r.x >= 0.0 && r.y >= 0.0 && Right(r) <= width && Bottom(r) <= height
  }

  function MinX(rs: seq<Rect>): real
    requires |rs| > 0
  {
    if |rs| == 1 then rs[0].x else Min(rs[0].x, MinX(rs[1..]))
  }

  function MinY(rs: seq<Rect>): real
    requires |rs| > 0
  {
    if |rs| == 1 then rs[0].y else Min(rs[0].y, MinY(rs[1..]))
  }

  function MaxRight(rs: seq<Rect>): real
    requires |rs| > 0
  {
    if |rs| == 1 then Right(rs[0]) else Max(Right(rs[0]), MaxRight(rs[1..]))
  }

  function MaxBottom(rs: seq<Rect>): real
    requires |rs| > 0
  {
    if |rs| == 1 then Bottom(rs[0]) else Max(Bottom(rs[0]), MaxBottom(rs[1..]))
  }

  /** The four extremes are attained by some rectangle and bound all of them. */
  lemma {:induction false} ExtremesOf(rs: seq<Rect>)
    requires |rs| > 0
    ensures forall k :: 0 <= k < |rs| ==> MinX(rs) <= rs[k].x && MinY(rs) <= rs[k].y
    ensures forall k :: 0 <= k < |rs| ==> Right(rs[k]) <= MaxRight(rs) && Bottom(rs[k]) <= MaxBottom(rs)
    ensures exists k :: 0 <= k < |rs| && rs[k].x == MinX(rs)
    ensures exists k :: 0 <= k < |rs| && rs[k].y == MinY(rs)
    ensures exists k :: 0 <= k < |rs| && Right(rs[k]) == MaxRight(rs)
    ensures exists k :: 0 <= k < |rs| && Bottom(rs[k]) == MaxBottom(rs)
  {
    if |rs| > 1 {
      var tail := rs[1..];
      ExtremesOf(tail);
      assert forall k :: 1 <= k < |rs| ==> rs[k] == tail[k - 1];
      var k1 :| 0 <= k1 < |tail| && tail[k1].x == MinX(tail);
      var w1 := if MinX(rs) == rs[0].x then 0 else k1 + 1;
      assert rs[w1].x == MinX(rs);
      var k2 :| 0 <= k2 < |tail| && tail[k2].y == MinY(tail);
      var w2 := if MinY(rs) == rs[0].y then 0 else k2 + 1;
      assert rs[w2].y == MinY(rs);
      var k3 :| 0 <= k3 < |tail| && Right(tail[k3]) == MaxRight(tail);
      var w3 := if MaxRight(rs) == Right(rs[0]) then 0 else k3 + 1;
      assert Right(rs[w3]) == MaxRight(rs);
      var k4 :| 0 <= k4 < |tail| && Bottom(tail[k4]) == MaxBottom(tail);
      var w4 := if MaxBottom(rs) == Bottom(rs[0]) then 0 else k4 + 1;
      assert Bottom(rs[w4]) == MaxBottom(rs);
    }
  }

  /**
   * `get_rectangle_bounds`: the zero box for no rectangles, else the smallest box enclosing
   * them all.
   */
  function Bounds(rs: seq<Rect>): Box
  {
    if rs == [] then Box(0.0, 0.0, 0.0, 0.0)
    else
      var x, y := MinX(rs), MinY(rs);
      Box(x, y, MaxRight(rs) - x, MaxBottom(rs) - y)
  }

  predicate Encloses(b: Box, r: Rect)
  {
    b.x <= r.x && b.y <= r.y && Right(r) <= b.x + b.w && Bottom(r) <= b.y + b.h
  }

  /** The box encloses every rectangle, and each of its four sides is touched by some rectangle. */
  lemma {:induction false} BoundsEnclose(rs: seq<Rect>)
    ensures rs == [] ==> Bounds(rs) == Box(0.0, 0.0, 0.0, 0.0)
    ensures forall k :: 0 <= k < |rs| ==> Encloses(Bounds(rs), rs[k])
    ensures rs != [] ==> (exists k :: 0 <= k < |rs| && rs[k].x == Bounds(rs).x) &&
                         (exists k :: 0 <= k < |rs| && rs[k].y == Bounds(rs).y)
    ensures rs != [] ==> (exists k :: 0 <= k < |rs| && Right(rs[k]) == Bounds(rs).x + Bounds(rs).w) &&
                         (exists k :: 0 <= k < |rs| && Bottom(rs[k]) == Bounds(rs).y + Bounds(rs).h)
  {
    if rs != [] {
      ExtremesOf(rs);
    }
  }

  // ---------------------------------------------------------------- rotate and translate

  /** `rotate_rectangle`: width and height swapped, rotation flag negated, all else kept. */
  function Rotate(r: Rect): (q: Rect)
    ensures q.w == r.h && q.h == r.w && q.rotated == !r.rotated
    ensures q.x == r.x && q.y == r.y && q.id == r.id && q.kind == r.kind && q.sequence == r.sequence && q.name == r.name
  {
    r.(w := r.h, h := r.w, rotated := !r.rotated)
  }

  lemma {:induction false} RotateTwice(r: Rect)
    ensures Rotate(Rotate(r)) == r
  {
  }

  /** `translate_rectangle`: only the position changes, by exactly (dx, dy). */
  function Translate(r: Rect, dx: real, dy: real): (q: Rect)
    ensures q.x == r.x + dx && q.y == r.y + dy
    ensures q.(x := r.x, y := r.y) == r
  {
    r.(x := r.x + dx, y := r.y + dy)
  }

  /** Moving two rectangles by the same offset keeps whether they overlap and how far apart they are. */
  lemma {:induction false} TranslatePreservesOverlap(a: Rect, b: Rect, dx: real, dy: real)
    ensures Overlaps(Translate(a, dx, dy), Translate(b, dx, dy)) == Overlaps(a, b)
    ensures GapX(Translate(a, dx, dy), Translate(b, dx, dy)) == GapX(a, b)
    ensures GapY(Translate(a, dx, dy), Translate(b, dx, dy)) == GapY(a, b)
    ensures EdgeDistance(Translate(a, dx, dy), Translate(b, dx, dy)) == EdgeDistance(a, b)
  {
  }

  // ---------------------------------------------------------------- utilisation and compactness

  function TotalArea(rs: seq<Rect>): (s: real)
    ensures (forall r :: r in rs ==> r.w >= 0.0 && r.h >= 0.0) ==> s >= 0.0
  {
    if |rs| == 0 then 0.0
    else
      var rest := TotalArea(rs[..|rs| - 1]);
      assert forall r :: r in rs[..|rs| - 1] ==> r in rs;
      var last := rs[|rs| - 1];
      assert last.w >= 0.0 && last.h >= 0.0 ==> last.w * last.h >= 0.0;
      rest + Area(last)
  }

  /** `calculate_utilization_ratio`: summed area over site area; 0 for no rectangles or an empty site. */
  function UtilizationRatio(rs: seq<Rect>, width: real, height: real): (u: real)
    ensures rs == [] || width * height <= 0.0 ==> u == 0.0
    ensures rs != [] && width * height > 0.0 ==> u * (width * height) == TotalArea(rs)
    ensures (forall r :: r in rs ==> r.w >= 0.0 && r.h >= 0.0) ==> u >= 0.0
  {
    if rs == [] then 0.0 else Ratio(TotalArea(rs), width * height)
  }

  /** `calculate_compactness`: summed area over the bounding box's area; 0 when either is degenerate. */
  function BoxArea(b: Box): real { b.w * b.h }

  /** `part / whole if whole > 0 else 0`. */
  function Ratio(part: real, whole: real): (q: real)
    ensures whole <= 0.0 ==> q == 0.0
    ensures whole > 0.0 ==> q * whole == part
    ensures part >= 0.0 ==> q >= 0.0
  {
    if whole > 0.0 then part / whole else 0.0
  }

  function Compactness(rs: seq<Rect>): (c: real)
    ensures rs == [] || BoxArea(Bounds(rs)) <= 0.0 ==> c == 0.0
    ensures rs != [] && BoxArea(Bounds(rs)) > 0.0 ==> c * BoxArea(Bounds(rs)) == TotalArea(rs)
    ensures (forall r :: r in rs ==> r.w >= 0.0 && r.h >= 0.0) ==> c >= 0.0
  {
    if rs == [] then 0.0 else Ratio(TotalArea(rs), BoxArea(Bounds(rs)))
  }

  // ---------------------------------------------------------------- closeness rating

  /**
   * The Systematic Layout Planning score of a pair at centre distance d whose rating is `weight`
   * (A=10, E=8, I=6, O=4, U=2, X=0) and whose preferred gap is `gap`.
   */
  function SlpScore(weight: int, d: real, gap: real): (s: real)
    ensures weight == 10 ==> 0.0 <= s <= 300.0 && (s == 300.0 <==> d == gap)
    ensures weight == 8 ==> 0.0 <= s <= 200.0 && (s == 200.0 <==> d == gap)
    ensures weight == 6 ==> 0.0 <= s <= 150.0 && (s == 150.0 <==> d == gap)
    ensures weight == 4 ==> 0.0 <= s <= 100.0 && (s == 100.0 <==> d == gap)
    ensures weight == 2 ==> s == 50.0
    ensures weight == 0 ==> s <= 100.0 && (s < 0.0 <==> d < gap)
    ensures weight !in {0, 2, 4, 6, 8, 10} ==> s == 0.0
  {
    var deviation := Abs(d - gap);
    if weight == 10 then Max(0.0, 300.0 - deviation * 3.0)
    else if weight == 8 then Max(0.0, 200.0 - deviation * 2.0)
    else if weight == 6 then Max(0.0, 150.0 - deviation * 1.5)
    else if weight == 4 then Max(0.0, 100.0 - deviation)
    else if weight == 2 then 50.0
    else if weight == 0 then (if d < gap then -(gap - d) * 5.0 else Min(d - gap, 100.0))
    else 0.0
  }

  /** For the ratings A, E, I and O the score only falls as the distance departs from the preferred gap. */
  lemma {:induction false} SlpScoreMonotone(weight: int, d1: real, d2: real, gap: real)
    requires weight in {4, 6, 8, 10}
    requires Abs(d1 - gap) <= Abs(d2 - gap)
    ensures SlpScore(weight, d2, gap) <= SlpScore(weight, d1, gap)
  {
  }

  /** `calculate_adjacency_score`: the rating score at the pair's centre distance. */
  function AdjacencyScore(a: Rect, b: Rect, weight: int, gap: real): (s: real)
    ensures s == SlpScore(weight, CenterDistance(a, b), gap)
    ensures weight == 2 ==> s == 50.0
    ensures weight == 0 ==> (s < 0.0 <==> CenterDistance(a, b) < gap)
  {
    SlpScore(weight, CenterDistance(a, b), gap)
  }

  // ---------------------------------------------------------------- grid positions

  /** No rectangle of `rs` overlaps `r`. */
  predicate Clear(rs: seq<Rect>, r: Rect)
  {
    forall k :: 0 <= k < |rs| ==> !Overlaps(r, rs[k])
  }

  /** No two rectangles of `rs` overlap. */
  predicate PairwiseDisjoint(rs: seq<Rect>)
  {
    forall a, b :: 0 <= a < b < |rs| ==> !Overlaps(rs[a], rs[b])
  }

  /** The scan `for existing in rects: if overlap: break`. */
  method IsClear(rs: seq<Rect>, r: Rect) returns (free: bool)
    ensures free == Clear(rs, r)
  {
    free := true;
    var k := 0;
    while k < |rs|
      invariant 0 <= k <= |rs|
      invariant free == (forall m :: 0 <= m < k ==> !Overlaps(r, rs[m]))
      invariant !free ==> !Clear(rs, r)
    {
      if Overlaps(r, rs[k]) {
        free := false;
        break;
      }
      k := k + 1;
    }
  }

  /** The values of Python's `range(start, limit + 1, step)`. */
  function RangeFrom(start: int, limit: int, step: int): (vs: seq<int>)
    requires step > 0
    ensures forall k :: 0 <= k < |vs| ==> start <= vs[k] <= limit
    ensures forall k :: 0 <= k < |vs| ==> vs[k] == start + k * step
    ensures |vs| > 0 ==> vs[0] == start && limit < vs[|vs| - 1] + step
    ensures start <= limit ==> |vs| > 0
    decreases limit - start
  {
    if start > limit then [] else [start] + RangeFrom(start + step, limit, step)
  }

  /** The position in `positions` if a w-by-h rectangle there overlaps none of `existing`. */
  function FreeEntries(existing: seq<Rect>, w: int, h: int): (int, int) -> seq<(int, int)>
  {
    (x: int, y: int) => if Clear(existing, Probe(x as real, y as real, w as real, h as real)) then [(x, y)] else []
  }

  /**
   * `generate_non_overlapping_positions`: column by column, the grid points of
   * `range(0, W - w + 1, grid)` x `range(0, H - h + 1, grid)` at which a w-by-h rectangle
   * overlaps none of `existing`.
   */
  method NonOverlappingPositions(existing: seq<Rect>, w: int, h: int, width: int, height: int, grid: int)
    returns (ps: seq<(int, int)>)
    requires grid > 0
    ensures ps == Product(RangeFrom(0, width - w, grid), RangeFrom(0, height - h, grid), FreeEntries(existing, w, h))
  {
    var xs, ys := RangeFrom(0, width - w, grid), RangeFrom(0, height - h, grid);
    var f := FreeEntries(existing, w, h);
    ps := [];
    for i := 0 to |xs|
      invariant ps == ProductRows(xs, ys, i, f)
    {
      for j := 0 to |ys|
        invariant ps == ProductRows(xs, ys, i, f) + Across(xs[i], ys, j, f)
      {
        var free := IsClear(existing, Probe(xs[i] as real, ys[j] as real, w as real, h as real));
        if free {
          ps := ps + [(xs[i], ys[j])];
        }
      }
    }
  }

  /**
   * Every returned position places the rectangle inside the site, clear of every existing
   * rectangle, and every grid point with that property is returned.
   */
  lemma {:induction false} NonOverlappingPositionsExact(existing: seq<Rect>, w: int, h: int, width: int, height: int, grid: int, p: (int, int))
    requires grid > 0
    ensures var ps := Product(RangeFrom(0, width - w, grid), RangeFrom(0, height - h, grid), FreeEntries(existing, w, h));
      p in ps <==> p.0 in RangeFrom(0, width - w, grid) && p.1 in RangeFrom(0, height - h, grid) &&
                   Clear(existing, Probe(p.0 as real, p.1 as real, w as real, h as real))
    ensures var ps := Product(RangeFrom(0, width - w, grid), RangeFrom(0, height - h, grid), FreeEntries(existing, w, h));
      p in ps ==> w >= 0 && h >= 0 ==> InBounds(Probe(p.0 as real, p.1 as real, w as real, h as real), width as real, height as real)
  {
    var xs, ys := RangeFrom(0, width - w, grid), RangeFrom(0, height - h, grid);
    ProductMember(xs, ys, FreeEntries(existing, w, h), p);
  }

  // ---------------------------------------------------------------- minimum distances

  /** `table.get(a, {}).get(b, 0)`. */
  function TableEntry(table: map<string, map<string, real>>, a: string, b: string): real
  {
    if a in table && b in table[a] then table[a][b] else 0.0
  }

  /** The separation a pair needs: the larger of the two directed table entries. */
  function RequiredDistance(table: map<string, map<string, real>>, a: string, b: string): (d: real)
    ensures d >= TableEntry(table, a, b) && d >= TableEntry(table, b, a)
    ensures d == TableEntry(table, a, b) || d == TableEntry(table, b, a)
  {
    Max(TableEntry(table, a, b), TableEntry(table, b, a))
  }

  /** One violated minimum distance: the ids, the edge distance found and the distance required. */
  datatype DistanceViolation = DistanceViolation(id1: string, id2: string, actual: real, required: real)

  function MinDistanceEntries(table: map<string, map<string, real>>, a: Rect, b: Rect): seq<DistanceViolation>
  {
    var required := RequiredDistance(table, a.id, b.id);
    if required > 0.0 && EdgeDistance(a, b) < required
    then [DistanceViolation(a.id, b.id, EdgeDistance(a, b), required)]
    else []
  }

  function MinDistanceCheck(table: map<string, map<string, real>>): (Rect, Rect) -> seq<DistanceViolation>
  {
    (a: Rect, b: Rect) => MinDistanceEntries(table, a, b)
  }

  /** `check_minimum_distances`: one violation per pair i < j closer than its required distance, in loop order. */
  method CheckMinimumDistances(rs: seq<Rect>, table: map<string, map<string, real>>)
    returns (vs: seq<DistanceViolation>)
    ensures vs == Pairs(rs, MinDistanceCheck(table))
  {
    vs := CollectPairs(rs, MinDistanceCheck(table));
  }

  /** No minimum-distance violation is reported iff every pair with a positive requirement is far enough apart. */
  lemma {:induction false} MinDistancesMet(rs: seq<Rect>, table: map<string, map<string, real>>)
    ensures Pairs(rs, MinDistanceCheck(table)) == [] <==>
      forall a, b :: 0 <= a < b < |rs| && RequiredDistance(table, rs[a].id, rs[b].id) > 0.0 ==>
        EdgeDistance(rs[a], rs[b]) >= RequiredDistance(table, rs[a].id, rs[b].id)
  {
    PairsEmpty(rs, MinDistanceCheck(table));
  }

  // ---------------------------------------------------------------- LayoutGeometry

  /** The offset `center_layout` moves every rectangle by: the bounding box goes to ((W - bw) // 2, (H - bh) // 2). */
  function CenterOffset(rs: seq<Rect>, width: real, height: real): (real, real)
  {
    var b := Bounds(rs);
    (FloorDiv(width - b.w, 2.0) - b.x, FloorDiv(height - b.h, 2.0) - b.y)
  }

  function TranslateAll(rs: seq<Rect>, dx: real, dy: real): (out: seq<Rect>)
    ensures |out| == |rs| && forall k :: 0 <= k < |rs| ==> out[k] == Translate(rs[k], dx, dy)
  {
    seq(|rs|, k requires 0 <= k < |rs| => Translate(rs[k], dx, dy))
  }

  /** The layout `center_layout` returns; an empty list is returned as it is. */
  function Centered(rs: seq<Rect>, width: real, height: real): seq<Rect>
  {
    if rs == [] then rs else TranslateAll(rs, CenterOffset(rs, width, height).0, CenterOffset(rs, width, height).1)
  }

  /** `LayoutGeometry.center_layout`: the loop copying every rectangle with the one offset added. */
  method CenterLayout(rs: seq<Rect>, width: real, height: real) returns (out: seq<Rect>)
    ensures out == Centered(rs, width, height)
  {
    if rs == [] {
      return rs;
    }
    var b := Bounds(rs);
    var dx := FloorDiv(width - b.w, 2.0) - b.x;
    var dy := FloorDiv(height - b.h, 2.0) - b.y;
    out := [];
    for k := 0 to |rs|
      invariant |out| == k
      invariant forall m :: 0 <= m < k ==> out[m] == Translate(rs[m], dx, dy)
    {
      out := out + [Translate(rs[k], dx, dy)];
    }
  }

  /**
   * Centring moves every rectangle by one and the same offset and changes nothing else: sizes,
   * ids, order and the overlap relation between any two rectangles are kept.
   */
  lemma {:induction false} CenteredKeeps(rs: seq<Rect>, width: real, height: real)
    ensures |Centered(rs, width, height)| == |rs|
    ensures rs != [] ==> forall k :: 0 <= k < |rs| ==>
      Centered(rs, width, height)[k] == Translate(rs[k], CenterOffset(rs, width, height).0, CenterOffset(rs, width, height).1)
    ensures forall k :: 0 <= k < |rs| ==> Centered(rs, width, height)[k].(x := rs[k].x, y := rs[k].y) == rs[k]
    ensures forall a, b :: 0 <= a < |rs| && 0 <= b < |rs| ==>
      Overlaps(Centered(rs, width, height)[a], Centered(rs, width, height)[b]) == Overlaps(rs[a], rs[b])
  {
    if rs != [] {
      var (dx, dy) := CenterOffset(rs, width, height);
      forall a, b | 0 <= a < |rs| && 0 <= b < |rs|
        ensures Overlaps(Centered(rs, width, height)[a], Centered(rs, width, height)[b]) == Overlaps(rs[a], rs[b])
      {
        TranslatePreservesOverlap(rs[a], rs[b], dx, dy);
      }
    }
  }

  lemma {:induction false} ExtremesTranslated(rs: seq<Rect>, out: seq<Rect>, dx: real, dy: real)
    requires |rs| == |out| > 0
    requires forall k :: 0 <= k < |rs| ==> out[k] == Translate(rs[k], dx, dy)
    ensures MinX(out) == MinX(rs) + dx && MinY(out) == MinY(rs) + dy
    ensures MaxRight(out) == MaxRight(rs) + dx && MaxBottom(out) == MaxBottom(rs) + dy
  {
    if |rs| > 1 {
      ExtremesTranslated(rs[1..], out[1..], dx, dy);
    }
  }

  /** Moving every rectangle by one offset moves the bounding box by that offset and keeps its size. */
  lemma {:induction false} BoundsOfTranslated(rs: seq<Rect>, dx: real, dy: real)
    requires rs != []
    ensures Bounds(TranslateAll(rs, dx, dy)) == Box(Bounds(rs).x + dx, Bounds(rs).y + dy, Bounds(rs).w, Bounds(rs).h)
  {
    ExtremesTranslated(rs, TranslateAll(rs, dx, dy), dx, dy);
  }

  /** After `center_layout` the bounding box sits at the floored centring offset and is as large as before. */
  lemma {:induction false} CenteredBounds(rs: seq<Rect>, width: real, height: real)
    requires rs != []
    ensures Bounds(Centered(rs, width, height)) ==
      Box(FloorDiv(width - Bounds(rs).w, 2.0), FloorDiv(height - Bounds(rs).h, 2.0), Bounds(rs).w, Bounds(rs).h)
  {
    var (dx, dy) := CenterOffset(rs, width, height);
    BoundsOfTranslated(rs, dx, dy);
  }

  /** Statistics `validate_layout` attaches to its verdict. */
  datatype LayoutStatistics = LayoutStatistics(processCount: nat, utilization: real, compactness: real, bounds: Box)

  /** A violation found by `validate_layout`. */
  datatype LayoutViolation = OutOfSite(id: string) | Overlapping(id1: string, id2: string)

  datatype LayoutValidation = LayoutValidation(valid: bool, violations: seq<LayoutViolation>, statistics: LayoutStatistics)

  function BoundaryEntries(width: real, height: real): Rect -> seq<LayoutViolation>
  {
    (r: Rect) => if InBounds(r, width, height) then [] else [OutOfSite(r.id)]
  }

  function OverlapEntries(): (Rect, Rect) -> seq<LayoutViolation>
  {
    (a: Rect, b: Rect) => if Overlaps(a, b) then [Overlapping(a.id, b.id)] else []
  }

  /**
   * `LayoutGeometry.validate_layout`: one violation per rectangle outside the site, then one
   * per overlapping pair; valid iff there is none.
   */
  method ValidateLayout(rs: seq<Rect>, width: real, height: real) returns (v: LayoutValidation)
    ensures v.statistics == LayoutStatistics(|rs|, UtilizationRatio(rs, width, height), Compactness(rs), Bounds(rs))
    ensures v.valid <==> v.violations == []
    ensures v.valid <==> (forall k :: 0 <= k < |rs| ==> InBounds(rs[k], width, height)) &&
                         (forall a, b :: 0 <= a < b < |rs| ==> !Overlaps(rs[a], rs[b]))
    ensures v.violations == Each(rs, |rs|, BoundaryEntries(width, height)) + Pairs(rs, OverlapEntries())
  {
    var outside := CollectEach(rs, BoundaryEntries(width, height));
    var overlapping := CollectPairs(rs, OverlapEntries());
    EachEmpty(rs, |rs|, BoundaryEntries(width, height));
    PairsEmpty(rs, OverlapEntries());
    var stats := LayoutStatistics(|rs|, UtilizationRatio(rs, width, height), Compactness(rs), Bounds(rs));
    v := LayoutValidation(outside + overlapping == [], outside + overlapping, stats);
  }
}
