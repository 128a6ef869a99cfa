/**
 * The configuration loader. Starting from the parsed JSON document, it
 *  - settles the site size, taken from one of three formats;
 *  - checks every space, converting legacy spaces to the current format;
 *  - enforces the rule that main sequence numbers are 1..n;
 *  - fills in defaults;
 *  - serves the views the engine reads: main, sub and fixed processes, and the adjacency matrix.
 * Reading the file itself is not modelled.
 */
module ConfigLoader {
  import opened Wrappers
  import opened Collect
  import opened Sorting
  import opened Numbering
  import opened Text

  /**
   * One entry of `config['spaces']`: the key it is stored under and the fields the engine reads.
   * `None` stands for an absent key.
   */
  datatype Space = Space(key: string, id: Option<string>, buildingType: Option<string>, legacyType: Option<string>,
                         sequence: Option<int>, width: Option<real>, height: Option<real>)

  datatype SiteDimensions = SiteDimensions(width: Option<real>, height: Option<real>)

  /** One value of `adjacency_weights`: the fields it sets when merged into a matrix entry. */
  datatype WeightInfo = WeightInfo(weight: Option<real>, preferredGap: Option<real>)

  /** One entry of `fixed_zones`. */
  datatype Zone = Zone(id: Option<string>, x: real, y: real, width: real, height: real, name: Option<string>)

  datatype OptimizationParams = OptimizationParams(generations: int, populationSize: int, mutationRate: real,
                                                   crossoverRate: real, initialTemperature: real,
                                                   coolingRate: real, minTemperature: real)

  /** The parsed document; dictionaries are lists of entries in their key order. */
  datatype Config = Config(siteDimensions: Option<SiteDimensions>, gridWidth: Option<real>, gridHeight: Option<real>,
                           gridSize: Option<real>, spaces: seq<Space>,
                           adjacencyWeights: Option<seq<(string, WeightInfo)>>, fixedZones: Option<seq<Zone>>,
                           hazardFactors: Option<map<string, seq<string>>>,
                           optimizationParams: Option<OptimizationParams>)

  /** The `ValueError`s (and the one `KeyError`) the loader raises. */
  datatype ConfigError =
    | SiteDimensionsIncomplete
    | NoSiteSize
    | NonPositiveSite
    | MissingKey(space: string, field: string)
    | NonPositiveSpace(space: string)
    | InvalidBuildingType(space: string)
    | MissingSequence(space: string)
    | InvalidSequence(space: string)
    | MissingSize(space: string)
    | NoMainProcess
    | SequenceKeyMissing
    | NotConsecutive(found: seq<int>, expected: seq<int>)
    | NotLoaded

  // ---------------------------------------------------------------- site size

  /** The size `_validate_config` settles on, before testing that it is positive. */
  function SiteSize(c: Config): Result<(real, real), ConfigError>
  {
    if c.siteDimensions.Some? then
      var d := c.siteDimensions.value;
      if d.width.None? || d.height.None? then Failure(SiteDimensionsIncomplete)
      else Success((d.width.value, d.height.value))
    else if c.gridWidth.Some? && c.gridHeight.Some? then Success((c.gridWidth.value, c.gridHeight.value))
    else if c.gridSize.Some? then Success((c.gridSize.value, c.gridSize.value))
    else Failure(NoSiteSize)
  }

  /**
   * The three formats in priority order:
   *  - `site_dimensions` decides alone when present;
   *  - otherwise a full `grid_width`/`grid_height` pair beats `grid_size`;
   *  - `grid_size` gives a square;
   *  - the size is missing only when none of them is given.
   */
  lemma {:induction false} SitePriority(c: Config, gw: Option<real>, gh: Option<real>, gs: Option<real>)
    ensures c.siteDimensions.Some? ==>
      SiteSize(c) == SiteSize(c.(gridWidth := gw, gridHeight := gh, gridSize := gs))
    ensures c.siteDimensions.None? && c.gridWidth.Some? && c.gridHeight.Some? ==>
      SiteSize(c) == SiteSize(c.(gridSize := gs)) && SiteSize(c) == Success((c.gridWidth.value, c.gridHeight.value))
    ensures c.siteDimensions.None? && !(c.gridWidth.Some? && c.gridHeight.Some?) && c.gridSize.Some? ==>
      SiteSize(c).Success? && SiteSize(c).value.0 == SiteSize(c).value.1
    ensures SiteSize(c) == Failure(NoSiteSize) <==>
      c.siteDimensions.None? && !(c.gridWidth.Some? && c.gridHeight.Some?) && c.gridSize.None?
  {
  }

  /** The site check: the size, stored back in the `site_dimensions` format, must be positive. */
  function ValidatedSite(c: Config): Result<Config, ConfigError>
  {
    match SiteSize(c)
    case Failure(e) => Failure(e)
    case Success((w, h)) =>
      if w <= 0.0 || h <= 0.0 then Failure(NonPositiveSite)
      else Success(c.(siteDimensions := Some(SiteDimensions(Some(w), Some(h)))))
  }

  // ---------------------------------------------------------------- spaces

  const ValidTypes: seq<string> := ["main", "sub", "fixed"]

  /** The building type a legacy space gets from its lower-cased `type`. */
  function LegacyBuildingType(oldType: string): (t: string)
    ensures t in ValidTypes
    ensures t == "main" <==> oldType == "main_building" || oldType == "production"
    ensures t == "fixed" <==> oldType == "parking" || oldType == "road" || oldType == "fixed"
  {
    if oldType in ["main_building", "production"] then "main"
    else if oldType in ["parking", "road", "fixed"] then "fixed"
    else "sub"
  }

  /** The building type of a legacy space: from its `type` if it has one, "sub" otherwise. */
  function LegacyType(s: Space): string
  {
    if s.legacyType.Some? then LegacyBuildingType(Lower(s.legacyType.value)) else "sub"
  }

  /** The legacy mapping ignores letter case. */
  lemma {:induction false} LegacyTypeIgnoresCase(s: Space, t: string)
    requires s.legacyType.Some? && Lower(t) == Lower(s.legacyType.value)
    ensures LegacyType(s.(legacyType := Some(t))) == LegacyType(s)
  {
  }

  /** `_validate_space`: the space as it stands after validation, or the first error. */
  function ValidateSpace(s: Space): Result<Space, ConfigError>
  {
    if s.buildingType.Some? then
      if s.width.None? then Failure(MissingKey(s.key, "width"))
      else if s.height.None? then Failure(MissingKey(s.key, "height"))
      else if s.width.value <= 0.0 || s.height.value <= 0.0 then Failure(NonPositiveSpace(s.key))
      else if s.buildingType.value !in ValidTypes then Failure(InvalidBuildingType(s.key))
      else if s.buildingType.value == "main" && s.sequence.None? then Failure(MissingSequence(s.key))
      else if s.buildingType.value == "main" && s.sequence.value < 1 then Failure(InvalidSequence(s.key))
      else Success(s)
    else
      if s.width.None? || s.height.None? then Failure(MissingSize(s.key))
      else if s.width.value <= 0.0 || s.height.value <= 0.0 then Failure(NonPositiveSpace(s.key))
      else Success(s.(buildingType := Some(LegacyType(s))))
  }

  /** What the space check demands of a space. */
  predicate AcceptableSpace(s: Space)
  {
    s.width.Some? && s.height.Some? && s.width.value > 0.0 && s.height.value > 0.0 &&
    (s.buildingType.Some? ==>
      s.buildingType.value in ValidTypes &&
      (s.buildingType.value == "main" ==> s.sequence.Some? && s.sequence.value >= 1))
  }

  /** A space after a successful check: typed, positively sized, and numbered if it is a new-format main. */
  predicate CheckedSpace(s: Space)
  {
    s.width.Some? && s.height.Some? && s.width.value > 0.0 && s.height.value > 0.0 &&
    s.buildingType.Some? && s.buildingType.value in ValidTypes
  }

  /**
   * The space check accepts exactly the acceptable spaces. It changes nothing in a new-format
   * space, and only sets the type of a legacy one.
   */
  lemma {:induction false} ValidateSpaceSpec(s: Space)
    ensures ValidateSpace(s).Success? <==> AcceptableSpace(s)
    ensures ValidateSpace(s).Success? ==> CheckedSpace(ValidateSpace(s).value)
    ensures ValidateSpace(s).Success? && s.buildingType.Some? ==> ValidateSpace(s).value == s
    ensures ValidateSpace(s).Success? && s.buildingType.None? ==>
      ValidateSpace(s).value == s.(buildingType := Some(LegacyType(s)))
  {
  }

  /** The loop `for space_id, space_info in spaces.items(): _validate_space(...)` as a whole. */
  function ConvertSpaces(xs: seq<Space>): Result<seq<Space>, ConfigError>
  {
    if xs == [] then Success([])
    else
      match ConvertSpaces(xs[..|xs| - 1])
      case Failure(e) => Failure(e)
      case Success(ys) =>
        match ValidateSpace(xs[|xs| - 1])
        case Failure(e) => Failure(e)
        case Success(s) => Success(ys + [s])
  }

  /**
   * The loop succeeds iff every space is acceptable, and then converts each one in place. When
   * it fails, the error is that of the first unacceptable space.
   */
  lemma {:induction false} ConvertSpacesSpec(xs: seq<Space>)
    ensures ConvertSpaces(xs).Success? ==>
      |ConvertSpaces(xs).value| == |xs| &&
      forall k :: 0 <= k < |xs| ==> ValidateSpace(xs[k]).Success? && ConvertSpaces(xs).value[k] == ValidateSpace(xs[k]).value
    ensures ConvertSpaces(xs).Failure? ==>
      exists k :: 0 <= k < |xs| && !AcceptableSpace(xs[k]) && (forall j :: 0 <= j < k ==> AcceptableSpace(xs[j])) &&
        ConvertSpaces(xs).error == ValidateSpace(xs[k]).error
    ensures ConvertSpaces(xs).Success? <==> forall k :: 0 <= k < |xs| ==> AcceptableSpace(xs[k])
  {
    if xs != [] {
      var init, last := xs[..|xs| - 1], xs[|xs| - 1];
      ConvertSpacesSpec(init);
      ValidateSpaceSpec(last);
      assert forall k :: 0 <= k < |init| ==> init[k] == xs[k];
      if ConvertSpaces(init).Failure? {
        var k :| 0 <= k < |init| && !AcceptableSpace(init[k]) && (forall j :: 0 <= j < k ==> AcceptableSpace(init[j])) &&
          ConvertSpaces(init).error == ValidateSpace(init[k]).error;
        assert !AcceptableSpace(xs[k]);
      } else if !AcceptableSpace(last) {
        assert forall j :: 0 <= j < |xs| - 1 ==> AcceptableSpace(xs[j]);
      }
    }
  }

  // ---------------------------------------------------------------- main process sequence

  predicate IsMainSpace(s: Space) { s.buildingType == Some("main") }
  predicate IsSubSpace(s: Space) { s.buildingType == Some("sub") }
  predicate IsFixedSpace(s: Space) { s.buildingType == Some("fixed") }

  /** `space_info['main_process_sequence']` where it is known to be present. */
  function SequenceOf(s: Space): int
  {
    if s.sequence.Some? then s.sequence.value else 0
  }

  predicate Unnumbered(s: Space) { s.sequence.None? }

  /**
   * `_validate_main_process_sequence`:
   *  - no main space fails;
   *  - a main space without a number raises `KeyError` while the numbers are read;
   *  - otherwise the sorted numbers must be 1..n.
   */
  function SequenceRule(spaces: seq<Space>): Option<ConfigError>
  {
    var mains := Filter(spaces, IsMainSpace);
    if mains == [] then Some(NoMainProcess)
    else if Filter(mains, Unnumbered) != [] then Some(SequenceKeyMissing)
    else
      var sorted := SortedAsc(Numbers(mains, SequenceOf));
      if sorted != Iota(|mains|) then Some(NotConsecutive(sorted, Iota(|mains|))) else None
  }

  /**
   * The rule passes iff there are main spaces, each holding a number, and their numbers are 1..n
   * each exactly once.
   */
  lemma {:induction false} SequenceRuleSpec(spaces: seq<Space>)
    ensures SequenceRule(spaces).None? <==>
      var mains := Filter(spaces, IsMainSpace);
      mains != [] && (forall k :: 0 <= k < |mains| ==> mains[k].sequence.Some?) &&
      multiset(Numbers(mains, SequenceOf)) == multiset(Iota(|mains|))
  {
    var mains := Filter(spaces, IsMainSpace);
    FilterEmpty(mains, Unnumbered);
    OneToN(Numbers(mains, SequenceOf));
  }

  /** `_validate_config` as a whole: the validated document, or the first error. */
  function ValidatedConfig(c: Config): Result<Config, ConfigError>
  {
    match ValidatedSite(c)
    case Failure(e) => Failure(e)
    case Success(c1) =>
      match ConvertSpaces(c1.spaces)
      case Failure(e) => Failure(e)
      case Success(spaces) =>
        if Filter(spaces, IsMainSpace) != [] && SequenceRule(spaces).Some? then Failure(SequenceRule(spaces).value)
        else Success(c1.(spaces := spaces))
  }

  /**
   * A validated document has
   *  - a positive site size in the `site_dimensions` format;
   *  - the same spaces, each checked;
   *  - if it has main spaces, numbers on all of them, forming 1..n.
   */
  lemma {:induction false} ValidatedConfigSpec(c: Config)
    requires ValidatedConfig(c).Success?
    ensures var v := ValidatedConfig(c).value;
      v.siteDimensions.Some? && v.siteDimensions.value.width.Some? && v.siteDimensions.value.height.Some? &&
      v.siteDimensions.value.width.value > 0.0 && v.siteDimensions.value.height.value > 0.0 &&
      |v.spaces| == |c.spaces| &&
      (forall k :: 0 <= k < |v.spaces| ==> CheckedSpace(v.spaces[k]) && v.spaces[k].key == c.spaces[k].key)
    ensures var v := ValidatedConfig(c).value;
      Filter(v.spaces, IsMainSpace) != [] ==> SequenceRule(v.spaces).None?
  {
    var c1 := ValidatedSite(c).value;
    ConvertSpacesSpec(c1.spaces);
    var v := ValidatedConfig(c).value;
    forall k | 0 <= k < |v.spaces|
      ensures CheckedSpace(v.spaces[k]) && v.spaces[k].key == c.spaces[k].key
    {
      ValidateSpaceSpec(c1.spaces[k]);
    }
  }

  /**
   * A legacy file with a `production` or `main_building` space that carries no sequence number
   * always fails, with the `KeyError` of the sequence check. This happens even when every space
   * passes its own check.
   */
  lemma {:induction false} LegacyMainRejected(c: Config, k: nat)
    requires ValidatedSite(c).Success?
    requires forall j :: 0 <= j < |c.spaces| ==> AcceptableSpace(c.spaces[j])
    requires k < |c.spaces| && c.spaces[k].buildingType.None? && c.spaces[k].sequence.None?
    requires c.spaces[k].legacyType.Some? && Lower(c.spaces[k].legacyType.value) in ["main_building", "production"]
    ensures ValidatedConfig(c) == Failure(SequenceKeyMissing)
  {
    var c1 := ValidatedSite(c).value;
    ConvertSpacesSpec(c1.spaces);
    var spaces := ConvertSpaces(c1.spaces).value;
    var s := spaces[k];
    assert s == c.spaces[k].(buildingType := Some("main"));
    FilterMember(spaces, IsMainSpace, s);
    FilterMember(Filter(spaces, IsMainSpace), Unnumbered, s);
  }

  // ---------------------------------------------------------------- defaults

  const DefaultOptimizationParams: OptimizationParams := OptimizationParams(100, 50, 0.1, 0.8, 1000.0, 0.95, 1.0)

  /** A space with its key as `id` when it has none. */
  function WithId(s: Space): Space
  {
    if s.id.None? then s.(id := Some(s.key)) else s
  }

  function WithIds(spaces: seq<Space>): (out: seq<Space>)
    ensures |out| == |spaces|
  {
    seq(|spaces|, k requires 0 <= k < |spaces| => WithId(spaces[k]))
  }

  /** `_apply_defaults`. */
  function WithDefaults(c: Config): Config
  {
    c.(adjacencyWeights := Some(c.adjacencyWeights.GetOr([])),
       fixedZones := Some(c.fixedZones.GetOr([])),
       hazardFactors := Some(c.hazardFactors.GetOr(map[])),
       optimizationParams := Some(c.optimizationParams.GetOr(DefaultOptimizationParams)),
       spaces := WithIds(c.spaces))
  }

  /**
   * The defaults only fill in what is absent:
   *  - a given value is kept;
   *  - every space ends up with an id, which is its key when it had none;
   *  - applying them twice changes nothing more.
   */
  lemma {:induction false} WithDefaultsSpec(c: Config)
    ensures var d := WithDefaults(c);
      d.adjacencyWeights.Some? && d.fixedZones.Some? && d.hazardFactors.Some? && d.optimizationParams.Some?
    ensures var d := WithDefaults(c);
      (c.adjacencyWeights.Some? ==> d.adjacencyWeights == c.adjacencyWeights) &&
      (c.fixedZones.Some? ==> d.fixedZones == c.fixedZones) &&
      (c.hazardFactors.Some? ==> d.hazardFactors == c.hazardFactors) &&
      (c.optimizationParams.Some? ==> d.optimizationParams == c.optimizationParams)
    ensures var d := WithDefaults(c);
      |d.spaces| == |c.spaces| &&
      forall k :: 0 <= k < |c.spaces| ==>
        d.spaces[k].id.Some? && d.spaces[k].key == c.spaces[k].key &&
        (c.spaces[k].id.Some? ==> d.spaces[k] == c.spaces[k]) &&
        (c.spaces[k].id.None? ==> d.spaces[k].id == Some(c.spaces[k].key))
    ensures WithDefaults(WithDefaults(c)) == WithDefaults(c)
  {
    var d := WithDefaults(c);
    assert WithIds(d.spaces) == d.spaces;
  }

  /** `load_config` after the file is read: validation, then the defaults. */
  function Loaded(c: Config): Result<Config, ConfigError>
  {
    match ValidatedConfig(c)
    case Failure(e) => Failure(e)
    case Success(v) => Success(WithDefaults(v))
  }

  // ---------------------------------------------------------------- views

  /** A space as a process record: a copy with `id` set to its key. */
  function AsProcess(s: Space): Space
  {
    s.(id := Some(s.key))
  }

  function MainEntry(s: Space): seq<Space> { if IsMainSpace(s) then [AsProcess(s)] else [] }
  function SubEntry(s: Space): seq<Space> { if IsSubSpace(s) then [AsProcess(s)] else [] }

  /** The sort key `lambda x: x['main_process_sequence']`. */
  function MainOrder(): Space -> real
  {
    ByNumber(SequenceOf)
  }

  /** `get_main_processes`: the main spaces as processes, sorted by sequence number. */
  function MainProcesses(spaces: seq<Space>): seq<Space>
  {
    SortDesc(Each(spaces, |spaces|, MainEntry), MainOrder())
  }

  /** `get_sub_processes`: the sub spaces as processes, in key order. */
  function SubProcesses(spaces: seq<Space>): seq<Space>
  {
    Each(spaces, |spaces|, SubEntry)
  }

  /** The process records hold exactly the spaces of their type, with their keys as ids. */
  lemma {:induction false} ProcessEntries(spaces: seq<Space>, p: Space)
    ensures p in Each(spaces, |spaces|, MainEntry) <==>
      exists k :: 0 <= k < |spaces| && IsMainSpace(spaces[k]) && p == AsProcess(spaces[k])
    ensures p in SubProcesses(spaces) <==>
      exists k :: 0 <= k < |spaces| && IsSubSpace(spaces[k]) && p == AsProcess(spaces[k])
  {
    EachMember(spaces, |spaces|, MainEntry, p);
    EachMember(spaces, |spaces|, SubEntry, p);
  }

  /**
   * The main processes are the main spaces as processes, reordered so that their sequence
   * numbers ascend; mains with equal numbers keep their key order.
   */
  lemma {:induction false} MainProcessesSpec(spaces: seq<Space>)
    ensures var ms := MainProcesses(spaces);
      Ascending(Numbers(ms, SequenceOf)) &&
      multiset(ms) == multiset(Each(spaces, |spaces|, MainEntry))
    ensures forall v :: Filter(MainProcesses(spaces), KeyIs(MainOrder(), v)) ==
                        Filter(Each(spaces, |spaces|, MainEntry), KeyIs(MainOrder(), v))
  {
    var raw := Each(spaces, |spaces|, MainEntry);
    NumbersOfSorted(raw, SequenceOf);
    SortedAscSpec(Numbers(raw, SequenceOf));
    SortDescSorted(raw, MainOrder());
    forall v
      ensures Filter(MainProcesses(spaces), KeyIs(MainOrder(), v)) == Filter(raw, KeyIs(MainOrder(), v))
    {
      SortDescStable(raw, MainOrder(), v);
    }
  }

  /** One entry of `get_fixed_zones`: a fixed space as a process, or an entry of `fixed_zones`. */
  datatype FixedEntry = FixedSpace(space: Space) | ListedZone(zone: Zone)

  function FixedEntryOf(s: Space): seq<FixedEntry> { if IsFixedSpace(s) then [FixedSpace(AsProcess(s))] else [] }

  const ZonePrefix: string := "fixed_zone_"

  /** An entry of `fixed_zones` at position n of the result, with the id it gets when it has none. */
  function NamedZone(z: Zone, n: nat): Zone
  {
    if z.id.None? then z.(id := Some(ZonePrefix + NatText(n))) else z
  }

  /** The `fixed_zones` entries after the loop, the first of them at position `start` of the result. */
  function NamedZones(zones: seq<Zone>, start: nat): (out: seq<Zone>)
    ensures |out| == |zones|
  {
    seq(|zones|, k requires 0 <= k < |zones| => NamedZone(zones[k], start + k))
  }

  function Listed(zones: seq<Zone>): (out: seq<FixedEntry>)
    ensures |out| == |zones| && forall k :: 0 <= k < |zones| ==> out[k] == ListedZone(zones[k])
  {
    seq(|zones|, k requires 0 <= k < |zones| => ListedZone(zones[k]))
  }

  /** `get_fixed_zones`: the fixed spaces first, then the `fixed_zones` entries, which get ids as they are added. */
  function FixedZones(c: Config): seq<FixedEntry>
  {
    var fromSpaces := Each(c.spaces, |c.spaces|, FixedEntryOf);
    if c.fixedZones.Some? then fromSpaces + Listed(NamedZones(c.fixedZones.value, |fromSpaces|)) else fromSpaces
  }

  function EntryId(e: FixedEntry): Option<string>
  {
    match e
    case FixedSpace(s) => s.id
    case ListedZone(z) => z.id
  }

  /** Different positions give different generated ids. */
  lemma {:induction false} GeneratedIdsDiffer(a: nat, b: nat)
    requires a != b
    ensures ZonePrefix + NatText(a) != ZonePrefix + NatText(b)
  {
    if ZonePrefix + NatText(a) == ZonePrefix + NatText(b) {
      assert NatText(a) == (ZonePrefix + NatText(a))[|ZonePrefix|..];
      assert NatText(b) == (ZonePrefix + NatText(b))[|ZonePrefix|..];
      NatTextInjective(a, b);
    }
  }

  /** Every entry of the fixed-zone list has an id. */
  lemma {:induction false} FixedZonesIds(c: Config)
    ensures forall k :: 0 <= k < |FixedZones(c)| ==> EntryId(FixedZones(c)[k]).Some?
  {
    var fromSpaces := Each(c.spaces, |c.spaces|, FixedEntryOf);
    forall e | e in fromSpaces
      ensures EntryId(e).Some?
    {
      EachMember(c.spaces, |c.spaces|, FixedEntryOf, e);
    }
    var out := FixedZones(c);
    forall k | 0 <= k < |out|
      ensures EntryId(out[k]).Some?
    {
      if k < |fromSpaces| {
        assert out[k] in fromSpaces;
      }
    }
  }

  /** A listed zone without an id gets "fixed_zone_<n>" for its position n in the list. */
  lemma {:induction false} FixedZonesGenerated(c: Config)
    requires c.fixedZones.Some?
    ensures var n := |Each(c.spaces, |c.spaces|, FixedEntryOf)|;
      forall k :: 0 <= k < |c.fixedZones.value| && c.fixedZones.value[k].id.None? ==>
        FixedZones(c)[n + k] == ListedZone(c.fixedZones.value[k].(id := Some(ZonePrefix + NatText(n + k))))
  {
    var n := |Each(c.spaces, |c.spaces|, FixedEntryOf)|;
    var zs := c.fixedZones.value;
    forall k | 0 <= k < |zs| && zs[k].id.None?
      ensures FixedZones(c)[n + k] == ListedZone(zs[k].(id := Some(ZonePrefix + NatText(n + k))))
    {
      FixedZoneAt(c, k);
    }
  }

  /** No two generated ids of the fixed-zone list are the same. */
  lemma {:induction false} FixedZonesUnique(c: Config)
    requires c.fixedZones.Some?
    ensures var n := |Each(c.spaces, |c.spaces|, FixedEntryOf)|;
      var zs := c.fixedZones.value;
      forall j, k :: 0 <= j < k < |zs| && zs[j].id.None? && zs[k].id.None? ==>
        EntryId(FixedZones(c)[n + j]) != EntryId(FixedZones(c)[n + k])
  {
    var n := |Each(c.spaces, |c.spaces|, FixedEntryOf)|;
    var zs := c.fixedZones.value;
    forall j, k | 0 <= j < k < |zs| && zs[j].id.None? && zs[k].id.None?
      ensures EntryId(FixedZones(c)[n + j]) != EntryId(FixedZones(c)[n + k])
    {
      FixedZonesApart(c, j, k);
    }
  }

  /** Two listed zones without ids of their own get different generated ids. */
  lemma {:induction false} FixedZonesApart(c: Config, j: nat, k: nat)
    requires c.fixedZones.Some? && j < k < |c.fixedZones.value|
    requires c.fixedZones.value[j].id.None? && c.fixedZones.value[k].id.None?
    ensures var n := |Each(c.spaces, |c.spaces|, FixedEntryOf)|;
      EntryId(FixedZones(c)[n + j]) != EntryId(FixedZones(c)[n + k])
  {
    var n := |Each(c.spaces, |c.spaces|, FixedEntryOf)|;
    FixedZoneAt(c, j);
    FixedZoneAt(c, k);
    GeneratedIdsDiffer(n + j, n + k);
  }

  /** The k-th listed zone sits after the fixed spaces; without an id of its own it is named for its position. */
  lemma {:induction false} FixedZoneAt(c: Config, k: nat)
    requires c.fixedZones.Some? && k < |c.fixedZones.value|
    ensures var n := |Each(c.spaces, |c.spaces|, FixedEntryOf)|;
      var z := c.fixedZones.value[k];
      n + k < |FixedZones(c)| && FixedZones(c)[n + k] == ListedZone(NamedZone(z, n + k)) &&
      (z.id.None? ==> FixedZones(c)[n + k] == ListedZone(z.(id := Some(ZonePrefix + NatText(n + k)))) &&
                      EntryId(FixedZones(c)[n + k]) == Some(ZonePrefix + NatText(n + k)))
  {
    var fromSpaces := Each(c.spaces, |c.spaces|, FixedEntryOf);
    var n := |fromSpaces|;
    var named := NamedZones(c.fixedZones.value, n);
    assert FixedZones(c) == fromSpaces + Listed(named);
    assert (fromSpaces + Listed(named))[n + k] == Listed(named)[k];
  }

  // ---------------------------------------------------------------- adjacency matrix

  /** One entry of the adjacency matrix. */
  datatype Entry = Entry(weight: real, preferredGap: real)

  /** `{'weight': 2, 'preferred_gap': 100}`: the Unimportant rating of Systematic Layout Planning. */
  const DefaultEntry: Entry := Entry(2.0, 100.0)

  /** `entry.update(weight_info)`: the fields the rule gives replace those of the entry. */
  function Updated(e: Entry, w: WeightInfo): Entry
  {
    Entry(w.weight.GetOr(e.weight), w.preferredGap.GetOr(e.preferredGap))
  }

  type Matrix = map<string, map<string, Entry>>

  /** Row `a` after the inner loop has visited the first j ids. */
  function DefaultRow(ids: seq<string>, a: string, j: nat): map<string, Entry>
    requires j <= |ids|
  {
    if j == 0 then map[]
    else if ids[j - 1] != a then DefaultRow(ids, a, j - 1)[ids[j - 1] := DefaultEntry]
    else DefaultRow(ids, a, j - 1)
  }

  /** The matrix after the outer loop has visited the first i ids. */
  function InitialRows(ids: seq<string>, i: nat): Matrix
    requires i <= |ids|
  {
    if i == 0 then map[] else InitialRows(ids, i - 1)[ids[i - 1] := DefaultRow(ids, ids[i - 1], |ids|)]
  }

  lemma {:induction false} DefaultRowSpec(ids: seq<string>, a: string, j: nat)
    requires j <= |ids|
    ensures forall b :: b in DefaultRow(ids, a, j) <==> b in ids[..j] && b != a
    ensures forall b :: b in DefaultRow(ids, a, j) ==> DefaultRow(ids, a, j)[b] == DefaultEntry
  {
    if j > 0 {
      DefaultRowSpec(ids, a, j - 1);
      assert ids[..j] == ids[..j - 1] + [ids[j - 1]];
    }
  }

  /** Before the rules, the matrix has a default entry for every ordered pair of different ids. */
  lemma {:induction false} InitialRowsSpec(ids: seq<string>, i: nat)
    requires i <= |ids|
    ensures forall a :: a in InitialRows(ids, i) <==> a in ids[..i]
    ensures forall a, b :: a in InitialRows(ids, i) ==> (b in InitialRows(ids, i)[a] <==> b in ids && b != a)
    ensures forall a, b :: a in InitialRows(ids, i) && b in InitialRows(ids, i)[a] ==>
      InitialRows(ids, i)[a][b] == DefaultEntry
  {
    if i > 0 {
      InitialRowsSpec(ids, i - 1);
      DefaultRowSpec(ids, ids[i - 1], |ids|);
      assert ids[..i] == ids[..i - 1] + [ids[i - 1]];
      assert ids[..|ids|] == ids;
    }
  }

  /** The pair of ids a rule key names, when it splits at '-' into exactly two parts. */
  function RulePair(key: string): Option<(string, string)>
  {
    if '-' in key && |SplitOn(key, '-')| == 2 then Some((SplitOn(key, '-')[0], SplitOn(key, '-')[1])) else None
  }

  /** A key names a pair iff it holds exactly one '-', and the pair is what lies around it. */
  lemma {:induction false} RulePairSpec(key: string)
    ensures RulePair(key).Some? <==> multiset(key)['-'] == 1
    ensures RulePair(key).Some? ==> key == RulePair(key).value.0 + "-" + RulePair(key).value.1
  {
    SplitOnTwo(key, '-');
    assert '-' in key <==> '-' in multiset(key);
  }

  /** One rule: update [a][b] and then [b][a], each only where the entry exists. */
  function ApplyRule(m: Matrix, key: string, w: WeightInfo): Matrix
  {
    match RulePair(key)
    case None => m
    case Some((a, b)) =>
      var m1 := if a in m && b in m[a] then m[a := m[a][b := Updated(m[a][b], w)]] else m;
      if b in m1 && a in m1[b] then m1[b := m1[b][a := Updated(m1[b][a], w)]] else m1
  }

  /** The matrix after the first n rules. */
  function ApplyRules(m: Matrix, rules: seq<(string, WeightInfo)>, n: nat): Matrix
    requires n <= |rules|
  {
    if n == 0 then m else ApplyRule(ApplyRules(m, rules, n - 1), rules[n - 1].0, rules[n - 1].1)
  }

  /** `get_adjacency_matrix` for the space keys `ids` and the rules of `adjacency_weights`. */
  function AdjacencyMatrix(ids: seq<string>, rules: seq<(string, WeightInfo)>): Matrix
  {
    ApplyRules(InitialRows(ids, |ids|), rules, |rules|)
  }

  /** Every row is defined where the other row is, with the same entry. */
  predicate Symmetric(m: Matrix)
  {
    forall a, b :: a in m && b in m[a] ==> b in m && a in m[b] && m[a][b] == m[b][a]
  }

  /** The ids of the rows and of their entries. */
  ghost predicate Shaped(m: Matrix, ids: seq<string>)
  {
    (forall a :: a in m <==> a in ids) &&
    (forall a, b :: a in m ==> (b in m[a] <==> b in ids && b != a))
  }

  /** A rule keeps the matrix's shape and its symmetry. */
  lemma {:induction false} ApplyRulePreserves(m: Matrix, ids: seq<string>, key: string, w: WeightInfo)
    requires Shaped(m, ids) && Symmetric(m)
    ensures Shaped(ApplyRule(m, key, w), ids) && Symmetric(ApplyRule(m, key, w))
  {
    var r := RulePair(key);
    if r.Some? {
      var (a, b) := r.value;
      var m1 := if a in m && b in m[a] then m[a := m[a][b := Updated(m[a][b], w)]] else m;
      var m2 := ApplyRule(m, key, w);
      assert Shaped(m1, ids);
      forall x, y | x in m2 && y in m2[x]
        ensures y in m2 && x in m2[y] && m2[x][y] == m2[y][x]
      {
        if a in m && b in m[a] {
          assert a != b;
        }
      }
    }
  }

  lemma {:induction false} ApplyRulesPreserves(m: Matrix, ids: seq<string>, rules: seq<(string, WeightInfo)>, n: nat)
    requires n <= |rules|
    requires Shaped(m, ids) && Symmetric(m)
    ensures Shaped(ApplyRules(m, rules, n), ids) && Symmetric(ApplyRules(m, rules, n))
  {
    if n > 0 {
      ApplyRulesPreserves(m, ids, rules, n - 1);
      ApplyRulePreserves(ApplyRules(m, rules, n - 1), ids, rules[n - 1].0, rules[n - 1].1);
    }
  }

  /** A rule names the unordered pair {a, b}. */
  predicate Names(rule: (string, WeightInfo), a: string, b: string)
  {
    RulePair(rule.0) == Some((a, b)) || RulePair(rule.0) == Some((b, a))
  }

  /** A rule leaves every entry of a pair it does not name as it is. */
  lemma {:induction false} ApplyRulesElsewhere(m: Matrix, rules: seq<(string, WeightInfo)>, n: nat, a: string, b: string)
    requires n <= |rules|
    requires a in m && b in m[a]
    requires forall k :: 0 <= k < n ==> !Names(rules[k], a, b)
    ensures a in ApplyRules(m, rules, n) && b in ApplyRules(m, rules, n)[a]
    ensures ApplyRules(m, rules, n)[a][b] == m[a][b]
  {
    if n > 0 {
      ApplyRulesElsewhere(m, rules, n - 1, a, b);
    }
  }

  /**
   * The adjacency matrix:
   *  - has a row for every space key, with an entry for every other key;
   *  - is symmetric;
   *  - keeps the default entry for every pair that no rule names.
   */
  lemma {:induction false} AdjacencyMatrixSpec(ids: seq<string>, rules: seq<(string, WeightInfo)>)
    ensures Shaped(AdjacencyMatrix(ids, rules), ids) && Symmetric(AdjacencyMatrix(ids, rules))
    ensures forall a, b :: a in ids && b in ids && a != b && (forall k :: 0 <= k < |rules| ==> !Names(rules[k], a, b)) ==>
      AdjacencyMatrix(ids, rules)[a][b] == DefaultEntry
  {
    var m := InitialRows(ids, |ids|);
    InitialRowsSpec(ids, |ids|);
    assert ids[..|ids|] == ids;
    ApplyRulesPreserves(m, ids, rules, |rules|);
    forall a, b | a in ids && b in ids && a != b && (forall k :: 0 <= k < |rules| ==> !Names(rules[k], a, b))
      ensures AdjacencyMatrix(ids, rules)[a][b] == DefaultEntry
    {
      ApplyRulesElsewhere(m, rules, |rules|, a, b);
    }
  }

  /** A rule naming a pair sets that pair's entries in both directions from the merged entry. */
  lemma {:induction false} ApplyRuleNamed(m: Matrix, ids: seq<string>, key: string, w: WeightInfo)
    requires Shaped(m, ids) && Symmetric(m)
    requires RulePair(key).Some? && RulePair(key).value.0 in ids && RulePair(key).value.1 in ids
    requires RulePair(key).value.0 != RulePair(key).value.1
    ensures var (a, b) := RulePair(key).value;
      ApplyRule(m, key, w)[a][b] == Updated(m[a][b], w) && ApplyRule(m, key, w)[b][a] == Updated(m[a][b], w)
  {
  }

  // ---------------------------------------------------------------- the loader object

  /** Space keys in the order of `config['spaces']`. */
  function Keys(spaces: seq<Space>): (ids: seq<string>)
    ensures |ids| == |spaces| && forall k :: 0 <= k < |spaces| ==> ids[k] == spaces[k].key
  {
    seq(|spaces|, k requires 0 <= k < |spaces| => spaces[k].key)
  }

  class Loader {
    /** `self.config`: `None` until a document is loaded. */
    var config: Option<Config>

    constructor()
      ensures config == None
    {
      config := None;
    }

    /**
     * `load_config` on a parsed document: the result is `Loaded` of the document, and on success
     * the loader holds the validated document with its defaults.
     */
    method LoadConfig(parsed: Config) returns (r: Result<Config, ConfigError>)
      modifies this
      ensures r == Loaded(parsed)
      ensures r.Success? ==> config == Some(r.value)
      ensures config.Some?
    {
      config := Some(parsed);
      var e := ValidateConfig();
      if e.Some? {
        return Failure(e.value);
      }
      ApplyDefaults();
      r := Success(config.value);
    }

    /** `_validate_config`: converts the site size and the spaces in place, raising at the first error. */
    method ValidateConfig() returns (e: Option<ConfigError>)
      requires config.Some?
      modifies this
      ensures e.None? <==> ValidatedConfig(old(config).value).Success?
      ensures e.Some? ==> e.value == ValidatedConfig(old(config).value).error
      ensures e.None? ==> config == Some(ValidatedConfig(old(config).value).value)
      ensures config.Some?
    {
      var c := config.value;
      var site := SiteSize(c);
      if site.Failure? {
        return Some(site.error);
      }
      var (w, h) := site.value;
      config := Some(c.(siteDimensions := Some(SiteDimensions(Some(w), Some(h)))));
      if w <= 0.0 || h <= 0.0 {
        return Some(NonPositiveSite);
      }
      var c1 := config.value;
      assert ValidatedSite(c) == Success(c1);
      var spaces := c1.spaces;
      for k := 0 to |spaces|
        invariant |spaces| == |c1.spaces| && spaces[k..] == c1.spaces[k..]
        invariant ConvertSpaces(c1.spaces[..k]) == Success(spaces[..k])
        invariant config == Some(c1.(spaces := spaces))
      {
        assert c1.spaces[..k + 1][..k] == c1.spaces[..k];
        assert spaces[k] == c1.spaces[k];
        var s := ValidateSpace(spaces[k]);
        if s.Failure? {
          ConvertFailsFrom(c1.spaces, k + 1);
          return Some(s.error);
        }
        spaces := spaces[k := s.value];
        assert spaces[..k + 1] == spaces[..k] + [s.value];
        config := Some(c1.(spaces := spaces));
      }
      assert c1.spaces[..|spaces|] == c1.spaces && spaces[..|spaces|] == spaces;
      var mains := FilterLoop(spaces, IsMainSpace);
      if mains != [] {
        e := ValidateMainProcessSequence();
      } else {
        e := None;
      }
    }

    /** `_validate_main_process_sequence` on the spaces the loader holds. */
    method ValidateMainProcessSequence() returns (e: Option<ConfigError>)
      requires config.Some?
      ensures e == SequenceRule(config.value.spaces)
    {
      var mains := FilterLoop(config.value.spaces, IsMainSpace);
      if mains == [] {
        return Some(NoMainProcess);
      }
      var unnumbered := FilterLoop(mains, Unnumbered);
      if unnumbered != [] {
        return Some(SequenceKeyMissing);
      }
      var sequences := SortedAsc(Numbers(mains, SequenceOf));
      var expected := Iota(|mains|);
      if sequences != expected {
        return Some(NotConsecutive(sequences, expected));
      }
      e := None;
    }

    /** `_apply_defaults`: the missing top-level keys, then the missing space ids. */
    method ApplyDefaults()
      requires config.Some?
      modifies this
      ensures config == Some(WithDefaults(old(config).value))
    {
      var c := config.value;
      if c.adjacencyWeights.None? {
        c := c.(adjacencyWeights := Some([]));
      }
      if c.fixedZones.None? {
        c := c.(fixedZones := Some([]));
      }
      if c.hazardFactors.None? {
        c := c.(hazardFactors := Some(map[]));
      }
      if c.optimizationParams.None? {
        c := c.(optimizationParams := Some(DefaultOptimizationParams));
      }
      var spaces := c.spaces;
      for k := 0 to |spaces|
        invariant |spaces| == |c.spaces|
        invariant forall j :: 0 <= j < k ==> spaces[j] == WithId(c.spaces[j])
        invariant forall j :: k <= j < |spaces| ==> spaces[j] == c.spaces[j]
      {
        if spaces[k].id.None? {
          spaces := spaces[k := spaces[k].(id := Some(spaces[k].key))];
        }
      }
      assert spaces == WithIds(c.spaces);
      config := Some(c.(spaces := spaces));
    }

    /** `get_main_processes`. */
    method GetMainProcesses() returns (r: Result<seq<Space>, ConfigError>)
      ensures config.None? ==> r == Failure(NotLoaded)
      ensures config.Some? ==> r == Success(MainProcesses(config.value.spaces))
    {
      if config.None? {
        return Failure(NotLoaded);
      }
      var spaces := config.value.spaces;
      var mains := CollectEach(spaces, MainEntry);
      r := Success(SortDesc(mains, MainOrder()));
    }

    /** `get_sub_processes`. */
    method GetSubProcesses() returns (r: Result<seq<Space>, ConfigError>)
      ensures config.None? ==> r == Failure(NotLoaded)
      ensures config.Some? ==> r == Success(SubProcesses(config.value.spaces))
    {
      if config.None? {
        return Failure(NotLoaded);
      }
      var subs := CollectEach(config.value.spaces, SubEntry);
      r := Success(subs);
    }

    /**
     * `get_fixed_zones`: the list, after giving each `fixed_zones` entry without an id its
     * generated id, in the loader's document too.
     */
    method GetFixedZones() returns (r: Result<seq<FixedEntry>, ConfigError>)
      modifies this
      ensures old(config).None? ==> r == Failure(NotLoaded) && config == old(config)
      ensures old(config).Some? ==> r == Success(FixedZones(old(config).value))
      ensures old(config).Some? && old(config).value.fixedZones.Some? ==>
        config == Some(old(config).value.(fixedZones := Some(NamedZones(old(config).value.fixedZones.value,
                                               |Each(old(config).value.spaces, |old(config).value.spaces|, FixedEntryOf)|))))
      ensures old(config).Some? && old(config).value.fixedZones.None? ==> config == old(config)
    {
      if config.None? {
        return Failure(NotLoaded);
      }
      var c := config.value;
      var fixed := CollectEach(c.spaces, FixedEntryOf);
      if c.fixedZones.Some? {
        var start := |fixed|;
        var zones := c.fixedZones.value;
        for k := 0 to |zones|
          invariant |zones| == |c.fixedZones.value| && |fixed| == start + k
          invariant forall j :: 0 <= j < k ==> zones[j] == NamedZone(c.fixedZones.value[j], start + j)
          invariant forall j :: k <= j < |zones| ==> zones[j] == c.fixedZones.value[j]
          invariant fixed == Each(c.spaces, |c.spaces|, FixedEntryOf) + Listed(zones[..k])
        {
          if zones[k].id.None? {
            zones := zones[k := zones[k].(id := Some(ZonePrefix + NatText(|fixed|)))];
          }
          assert zones[..k + 1] == zones[..k] + [zones[k]];
          fixed := fixed + [ListedZone(zones[k])];
        }
        assert zones == NamedZones(c.fixedZones.value, start);
        assert zones[..|zones|] == zones;
        config := Some(c.(fixedZones := Some(zones)));
      }
      r := Success(fixed);
    }

    /** `get_adjacency_matrix`: default entries for every ordered pair of keys, then the rules in order. */
    method GetAdjacencyMatrix() returns (r: Result<Matrix, ConfigError>)
      ensures config.None? ==> r == Failure(NotLoaded)
      ensures config.Some? ==>
        r == Success(AdjacencyMatrix(Keys(config.value.spaces), config.value.adjacencyWeights.GetOr([])))
    {
      if config.None? {
        return Failure(NotLoaded);
      }
      var rules := config.value.adjacencyWeights.GetOr([]);
      var ids := Keys(config.value.spaces);
      var matrix: Matrix := map[];
      for i := 0 to |ids|
        invariant matrix == InitialRows(ids, i)
      {
        var row: map<string, Entry> := map[];
        for j := 0 to |ids|
          invariant row == DefaultRow(ids, ids[i], j)
        {
          if ids[i] != ids[j] {
            row := row[ids[j] := DefaultEntry];
          }
        }
        matrix := matrix[ids[i] := row];
      }
      for k := 0 to |rules|
        invariant matrix == ApplyRules(InitialRows(ids, |ids|), rules, k)
      {
        var (key, info) := rules[k];
        if '-' in key {
          var parts := SplitOn(key, '-');
          if |parts| == 2 {
            var id1, id2 := parts[0], parts[1];
            if id1 in matrix && id2 in matrix[id1] {
              matrix := matrix[id1 := matrix[id1][id2 := Updated(matrix[id1][id2], info)]];
            }
            if id2 in matrix && id1 in matrix[id2] {
              matrix := matrix[id2 := matrix[id2][id1 := Updated(matrix[id2][id1], info)]];
            }
          }
        }
      }
      r := Success(matrix);
    }
  }

  /** Once a space fails its check the whole conversion fails, with that error. */
  lemma {:induction false} ConvertFailsFrom(xs: seq<Space>, n: nat)
    requires 0 < n <= |xs|
    requires ConvertSpaces(xs[..n - 1]).Success? && ValidateSpace(xs[n - 1]).Failure?
    ensures ConvertSpaces(xs) == Failure(ValidateSpace(xs[n - 1]).error)
  {
    assert xs[..n][..n - 1] == xs[..n - 1];
    ConvertFailsAfter(xs, n);
  }

  lemma {:induction false} ConvertFailsAfter(xs: seq<Space>, n: nat)
    requires 0 < n <= |xs| && ConvertSpaces(xs[..n]).Failure?
    ensures ConvertSpaces(xs) == ConvertSpaces(xs[..n])
    decreases |xs| - n
  {
    if n < |xs| {
      assert xs[..n + 1][..n] == xs[..n];
      ConvertFailsAfter(xs, n + 1);
    } else {
      assert xs[..n] == xs;
    }
  }
}
