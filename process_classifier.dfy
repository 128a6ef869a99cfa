/**
 * The process classifier. It splits the spaces of a loaded document into main processes and sub
 * processes, and checks three things:
 *  - the main processes carry the sequence numbers 1..n;
 *  - their ids do not repeat;
 *  - every process has a positive size that fits on the site.
 * It then answers queries about the classification.
 */
module ProcessClassifier {
  import opened Wrappers
  import opened Collect
  import opened Numbering
  import ConfigLoader

  type Space = ConfigLoader.Space

  /** The `ValueError`s the classifier raises. */
  datatype ClassifyError =
    | MissingSequence(space: string)
    | UnsupportedType(space: string, buildingType: Option<string>)
    | NoMainProcess
    | NotConsecutive(found: seq<int>, expected: seq<int>)
    | DuplicateIds(ids: seq<string>)
    | NonPositiveSize(process: string)
    | ExceedsSite(process: string)
    | UnknownProcess(process: string)

  /** `process['id']`: every process record carries its space key as id. */
  function ProcessId(p: Space): string
  {
    p.id.GetOr(p.key)
  }

  lemma {:induction false} ProcessIdOfSpace(s: Space)
    ensures ProcessId(ConfigLoader.AsProcess(s)) == s.key
  {
  }

  function Ids(ps: seq<Space>): (ids: seq<string>)
    ensures |ids| == |ps| && forall k :: 0 <= k < |ps| ==> ids[k] == ProcessId(ps[k])
  {
    seq(|ps|, k requires 0 <= k < |ps| => ProcessId(ps[k]))
  }

  // ---------------------------------------------------------------- the classification loop

  /** A main space with the sequence number v. */
  predicate Numbered(s: Space, v: int)
  {
    ConfigLoader.IsMainSpace(s) && s.sequence == Some(v)
  }

  /**
   * The state of the classification loop:
   *  - `main_processes_raw`, keyed by sequence number, with its keys in insertion order;
   *  - the list of sub processes.
   */
  datatype Raw = Raw(table: map<int, Space>, order: seq<int>, subs: seq<Space>)

  /** One turn of the loop for one space. */
  function Step(r: Raw, s: Space): Result<Raw, ClassifyError>
  {
    if s.buildingType == Some("main") then
      if s.sequence.None? then Failure(MissingSequence(s.key))
      else
        var v := s.sequence.value;
        Success(Raw(r.table[v := ConfigLoader.AsProcess(s)], if v in r.table then r.order else r.order + [v], r.subs))
    else if s.buildingType == Some("sub") then Success(r.(subs := r.subs + [ConfigLoader.AsProcess(s)]))
    else if s.buildingType == Some("fixed") then Success(r)
    else Failure(UnsupportedType(s.key, s.buildingType))
  }

  /** The loop after the first n spaces. The key order lists each key of the table once. */
  function ScanTo(xs: seq<Space>, n: nat): (r: Result<Raw, ClassifyError>)
    requires n <= |xs|
    ensures r.Success? ==> Distinct(r.value.order) && forall v :: v in r.value.order <==> v in r.value.table
  {
    if n == 0 then Success(Raw(map[], [], []))
    else
      match ScanTo(xs, n - 1)
      case Failure(e) => Failure(e)
      case Success(r) => Step(r, xs[n - 1])
  }

  /** A space the loop rejects: a main space without a number, or a space of no known type. */
  predicate Faulty(s: Space)
  {
    (ConfigLoader.IsMainSpace(s) && s.sequence.None?) ||
    !(ConfigLoader.IsMainSpace(s) || ConfigLoader.IsSubSpace(s) || ConfigLoader.IsFixedSpace(s))
  }

  function Fault(s: Space): ClassifyError
  {
    if ConfigLoader.IsMainSpace(s) then MissingSequence(s.key) else UnsupportedType(s.key, s.buildingType)
  }

  /** The loop gets through iff no space is faulty; otherwise it stops at the first faulty one. */
  lemma {:induction false} ScanOutcome(xs: seq<Space>, n: nat)
    requires n <= |xs|
    ensures ScanTo(xs, n).Success? <==> forall k :: 0 <= k < n ==> !Faulty(xs[k])
    ensures ScanTo(xs, n).Failure? ==>
      exists k :: 0 <= k < n && Faulty(xs[k]) && (forall j :: 0 <= j < k ==> !Faulty(xs[j])) &&
        ScanTo(xs, n).error == Fault(xs[k])
  {
    if n > 0 {
      ScanOutcome(xs, n - 1);
    }
  }

  /** Once the loop has raised, later spaces change nothing. */
  lemma {:induction false} ScanStops(xs: seq<Space>, n: nat, m: nat)
    requires n <= m <= |xs| && ScanTo(xs, n).Failure?
    ensures ScanTo(xs, m) == ScanTo(xs, n)
    decreases m
  {
    if m > n {
      ScanStops(xs, n, m - 1);
    }
  }

  /** The sub processes are the sub spaces as processes, in their input order. */
  lemma {:induction false} ScanSubs(xs: seq<Space>, n: nat)
    requires n <= |xs| && ScanTo(xs, n).Success?
    ensures ScanTo(xs, n).value.subs == Each(xs, n, ConfigLoader.SubEntry)
  {
    if n > 0 {
      ScanSubs(xs, n - 1);
    }
  }

  /** Some main space among the first n carries the number v. */
  predicate UsedNumber(xs: seq<Space>, n: nat, v: int)
    requires n <= |xs|
  {
    exists j :: 0 <= j < n && Numbered(xs[j], v)
  }

  /** Space j is the last of the first n spaces to carry the number v. */
  predicate LastBefore(xs: seq<Space>, n: nat, v: int, j: int)
    requires n <= |xs|
  {
    0 <= j < n && Numbered(xs[j], v) && forall i :: j < i < n ==> !Numbered(xs[i], v)
  }

  /** One turn of the loop changes the table only at the number of a main space, where it stores that space. */
  lemma {:induction false} StepTable(r: Raw, s: Space)
    requires Step(r, s).Success?
    ensures forall v :: Numbered(s, v) ==> v in Step(r, s).value.table && Step(r, s).value.table[v] == ConfigLoader.AsProcess(s)
    ensures forall v :: !Numbered(s, v) ==> (v in Step(r, s).value.table <==> v in r.table)
    ensures forall v :: !Numbered(s, v) && v in r.table ==> Step(r, s).value.table[v] == r.table[v]
  {
  }

  /** The table holds one entry per sequence number used by a main space. */
  lemma {:induction false} ScanDomain(xs: seq<Space>, n: nat)
    requires n <= |xs| && ScanTo(xs, n).Success?
    ensures forall v :: v in ScanTo(xs, n).value.table <==> UsedNumber(xs, n, v)
  {
    if n > 0 {
      ScanDomain(xs, n - 1);
      var r0 := ScanTo(xs, n - 1).value;
      StepTable(r0, xs[n - 1]);
      forall v
        ensures v in ScanTo(xs, n).value.table <==> UsedNumber(xs, n, v)
      {
        if Numbered(xs[n - 1], v) {
          assert UsedNumber(xs, n, v);
        } else if UsedNumber(xs, n, v) {
          var j :| 0 <= j < n && Numbered(xs[j], v);
          assert UsedNumber(xs, n - 1, v);
        }
      }
    }
  }

  /**
   * A number used twice holds the LAST main space carrying it; the earlier ones are
   * overwritten.
   */
  lemma {:induction false} ScanTable(xs: seq<Space>, n: nat)
    requires n <= |xs| && ScanTo(xs, n).Success?
    ensures var t := ScanTo(xs, n).value.table;
      forall v :: v in t ==> exists j :: LastBefore(xs, n, v, j) && t[v] == ConfigLoader.AsProcess(xs[j])
  {
    if n > 0 {
      ScanTable(xs, n - 1);
      var r0 := ScanTo(xs, n - 1).value;
      var t := ScanTo(xs, n).value.table;
      StepTable(r0, xs[n - 1]);
      forall v | v in t
        ensures exists j :: LastBefore(xs, n, v, j) && t[v] == ConfigLoader.AsProcess(xs[j])
      {
        if Numbered(xs[n - 1], v) {
          assert LastBefore(xs, n, v, n - 1);
        } else {
          var j :| LastBefore(xs, n - 1, v, j) && r0.table[v] == ConfigLoader.AsProcess(xs[j]);
          LastBeforeExtends(xs, n, v, j);
        }
      }
    }
  }

  lemma {:induction false} LastBeforeExtends(xs: seq<Space>, n: nat, v: int, j: int)
    requires 0 < n <= |xs| && LastBefore(xs, n - 1, v, j) && !Numbered(xs[n - 1], v)
    ensures LastBefore(xs, n, v, j)
  {
  }

  /** Every entry of the table carries the number it is stored under. */
  lemma {:induction false} TableNumbers(xs: seq<Space>)
    requires ScanTo(xs, |xs|).Success?
    ensures var t := ScanTo(xs, |xs|).value.table;
      forall v :: v in t ==> t[v].sequence == Some(v)
  {
    ScanTable(xs, |xs|);
    var t := ScanTo(xs, |xs|).value.table;
    forall v | v in t
      ensures t[v].sequence == Some(v)
    {
      var j :| LastBefore(xs, |xs|, v, j) && t[v] == ConfigLoader.AsProcess(xs[j]);
    }
  }

  // ---------------------------------------------------------------- the checks

  /** The keys of a key list that the table holds, sorted, each looked up: `_sort_main_processes`. */
  function SortedMains(raw: Raw): (mains: seq<Space>)
    requires forall v :: v in raw.order ==> v in raw.table
    ensures |mains| == |raw.order|
    ensures forall k :: 0 <= k < |mains| ==>
      SortedAsc(raw.order)[k] in raw.table && mains[k] == raw.table[SortedAsc(raw.order)[k]]
  {
    var keys := SortedAsc(raw.order);
    SortedKeysPresent(raw.order, raw.table);
    seq(|keys|, k requires 0 <= k < |keys| => raw.table[keys[k]])
  }

  lemma {:induction false} SortedKeysPresent(order: seq<int>, t: map<int, Space>)
    requires forall v :: v in order ==> v in t
    ensures forall k :: 0 <= k < |SortedAsc(order)| ==> SortedAsc(order)[k] in t
  {
    SortedAscSpec(order);
    forall k | 0 <= k < |SortedAsc(order)|
      ensures SortedAsc(order)[k] in t
    {
      assert SortedAsc(order)[k] in multiset(order);
    }
  }

  /** The ids occurring more than once. */
  function Shared(ids: seq<string>): string -> bool
  {
    (v: string) => multiset(ids)[v] > 1
  }

  /** `_validate_process_sequences`: the numbers must read 1..n, and no id may repeat. */
  function SequenceCheck(mains: seq<Space>): Option<ClassifyError>
  {
    var sequences := Numbers(mains, ConfigLoader.SequenceOf);
    var expected := Iota(|mains|);
    if sequences != expected then Some(NotConsecutive(sequences, expected))
    else
      var ids := Ids(mains);
      if !Distinct(ids) then Some(DuplicateIds(Filter(ids, Shared(ids)))) else None
  }

  /** `process.get('width', 0)` and `process.get('height', 0)`. */
  function Width(p: Space): real { p.width.GetOr(0.0) }
  function Height(p: Space): real { p.height.GetOr(0.0) }

  /** A process of positive size that fits on a W x H site. */
  predicate Fits(p: Space, W: real, H: real)
  {
    0.0 < Width(p) <= W && 0.0 < Height(p) <= H
  }

  /** The error the dimension check raises for one process, if any. */
  function DimensionFault(p: Space, W: real, H: real): Option<ClassifyError>
  {
    if Width(p) <= 0.0 || Height(p) <= 0.0 then Some(NonPositiveSize(ProcessId(p)))
    else if Width(p) > W || Height(p) > H then Some(ExceedsSite(ProcessId(p)))
    else None
  }

  /** The dimension check after the first n processes: the first error met. */
  function FirstDimensionFault(ps: seq<Space>, n: nat, W: real, H: real): Option<ClassifyError>
    requires n <= |ps|
  {
    if n == 0 then None
    else if FirstDimensionFault(ps, n - 1, W, H).Some? then FirstDimensionFault(ps, n - 1, W, H)
    else DimensionFault(ps[n - 1], W, H)
  }

  /** The dimension check passes iff every process fits; otherwise it reports the first that does not. */
  lemma {:induction false} DimensionOutcome(ps: seq<Space>, n: nat, W: real, H: real)
    requires n <= |ps|
    ensures FirstDimensionFault(ps, n, W, H).None? <==> forall k :: 0 <= k < n ==> Fits(ps[k], W, H)
    ensures FirstDimensionFault(ps, n, W, H).Some? ==>
      exists k :: 0 <= k < n && !Fits(ps[k], W, H) && (forall j :: 0 <= j < k ==> Fits(ps[j], W, H)) &&
        FirstDimensionFault(ps, n, W, H) == DimensionFault(ps[k], W, H)
  {
    if n > 0 {
      DimensionOutcome(ps, n - 1, W, H);
    }
  }

  lemma {:induction false} DimensionStops(ps: seq<Space>, n: nat, m: nat, W: real, H: real)
    requires n <= m <= |ps| && FirstDimensionFault(ps, n, W, H).Some?
    ensures FirstDimensionFault(ps, m, W, H) == FirstDimensionFault(ps, n, W, H)
    decreases m
  {
    if m > n {
      DimensionStops(ps, n, m - 1, W, H);
    }
  }

  /** `classify_processes` on the spaces of a W x H site: the main and sub process lists, or the first error. */
  function Classify(xs: seq<Space>, W: real, H: real): Result<(seq<Space>, seq<Space>), ClassifyError>
  {
    match ScanTo(xs, |xs|)
    case Failure(e) => Failure(e)
    case Success(raw) =>
      if raw.order == [] then Failure(NoMainProcess)
      else
        var mains := SortedMains(raw);
        var all := mains + raw.subs;
        if SequenceCheck(mains).Some? then Failure(SequenceCheck(mains).value)
        else if FirstDimensionFault(all, |all|, W, H).Some? then Failure(FirstDimensionFault(all, |all|, W, H).value)
        else Success((mains, raw.subs))
  }

  // ---------------------------------------------------------------- what a classification promises

  /** Looking up the sorted keys of a table whose entries carry their own numbers gives those numbers in order. */
  lemma {:induction false} MainsNumbers(raw: Raw)
    requires forall v :: v in raw.order ==> v in raw.table
    requires forall v :: v in raw.table ==> raw.table[v].sequence == Some(v)
    ensures Numbers(SortedMains(raw), ConfigLoader.SequenceOf) == SortedAsc(raw.order)
  {
    SortedKeysPresent(raw.order, raw.table);
    var keys, mains := SortedAsc(raw.order), SortedMains(raw);
    forall k | 0 <= k < |mains|
      ensures ConfigLoader.SequenceOf(mains[k]) == keys[k]
    {
      assert mains[k] == raw.table[keys[k]];
    }
  }

  /** Numbers that sort to 1..n are exactly the numbers 1..n. */
  lemma {:induction false} OneToNMembers(ns: seq<int>)
    requires SortedAsc(ns) == Iota(|ns|)
    ensures forall v :: v in ns <==> 1 <= v <= |ns|
  {
    OneToN(ns);
    var n := |ns|;
    forall v
      ensures v in ns <==> 1 <= v <= n
    {
      assert v in ns <==> v in multiset(ns);
      assert v in multiset(Iota(n)) <==> v in Iota(n);
      if 1 <= v <= n {
        assert Iota(n)[v - 1] == v;
      }
    }
  }

  /**
   * A successful classification has
   *  - at least one main process;
   *  - main processes numbered 1..n in list order;
   *  - the sub spaces in their input order as sub processes;
   *  - every process positive in size and fitting on the site.
   */
  lemma {:induction false} ClassifySpec(xs: seq<Space>, W: real, H: real)
    requires Classify(xs, W, H).Success?
    ensures var (mains, subs) := Classify(xs, W, H).value;
      |mains| >= 1 && Numbers(mains, ConfigLoader.SequenceOf) == Iota(|mains|) &&
      subs == ConfigLoader.SubProcesses(xs)
    ensures var (mains, subs) := Classify(xs, W, H).value;
      forall k :: 0 <= k < |mains + subs| ==> Fits((mains + subs)[k], W, H)
  {
    var raw := ScanTo(xs, |xs|).value;
    ScanSubs(xs, |xs|);
    var mains := SortedMains(raw);
    DimensionOutcome(mains + raw.subs, |mains + raw.subs|, W, H);
  }

  /**
   * The numbers the main spaces use are exactly 1..n, where n is the number of main processes.
   * No number some main space holds is lost, though a second space holding it is.
   */
  lemma {:induction false} ClassifyNumbers(xs: seq<Space>, W: real, H: real)
    requires Classify(xs, W, H).Success?
    ensures var mains := Classify(xs, W, H).value.0;
      forall v :: UsedNumber(xs, |xs|, v) <==> 1 <= v <= |mains|
  {
    var raw := ScanTo(xs, |xs|).value;
    TableNumbers(xs);
    MainsNumbers(raw);
    ScanDomain(xs, |xs|);
    OneToNMembers(raw.order);
  }

  /** Process k of the list is the last of the spaces to carry the number k + 1. */
  ghost predicate KeepsLast(xs: seq<Space>, mains: seq<Space>)
  {
    forall k :: 0 <= k < |mains| ==>
      mains[k].sequence == Some(k + 1) &&
      exists j :: LastBefore(xs, |xs|, k + 1, j) && mains[k] == ConfigLoader.AsProcess(xs[j])
  }

  /**
   * Main process k is the last main space carrying the number k + 1: a space whose number a
   * later main space repeats is dropped without an error.
   */
  lemma {:induction false} ClassifyKeepsLast(xs: seq<Space>, W: real, H: real)
    requires Classify(xs, W, H).Success?
    ensures KeepsLast(xs, Classify(xs, W, H).value.0)
  {
    var raw := ScanTo(xs, |xs|).value;
    ClassifySpec(xs, W, H);
    TableNumbers(xs);
    ScanTable(xs, |xs|);
    var mains := SortedMains(raw);
    forall k | 0 <= k < |mains|
      ensures mains[k].sequence == Some(k + 1)
      ensures exists j :: LastBefore(xs, |xs|, k + 1, j) && mains[k] == ConfigLoader.AsProcess(xs[j])
    {
      var v := SortedAsc(raw.order)[k];
      assert v in raw.table && mains[k] == raw.table[v];
      assert Numbers(mains, ConfigLoader.SequenceOf)[k] == k + 1;
      assert v == k + 1;
      var j :| LastBefore(xs, |xs|, v, j) && raw.table[v] == ConfigLoader.AsProcess(xs[j]);
      assert LastBefore(xs, |xs|, k + 1, j) && mains[k] == ConfigLoader.AsProcess(xs[j]);
    }
    assert Classify(xs, W, H).value.0 == mains;
    assert KeepsLast(xs, mains);
  }

  const SpaceA: Space := ConfigLoader.Space("a", None, Some("main"), None, Some(1), Some(10.0), Some(10.0))
  const SpaceB: Space := ConfigLoader.Space("b", None, Some("main"), None, Some(1), Some(20.0), Some(20.0))

  /** The loop over two main spaces numbered 1 keeps the second. */
  lemma {:induction false} ScanOfDuplicates()
    ensures ScanTo([SpaceA, SpaceB], 2) == Success(Raw(map[1 := ConfigLoader.AsProcess(SpaceB)], [1], []))
  {
    var xs := [SpaceA, SpaceB];
    var r0 := Raw(map[], [], []);
    var r1 := Raw(map[1 := ConfigLoader.AsProcess(SpaceA)], [1], []);
    var r2 := Raw(map[1 := ConfigLoader.AsProcess(SpaceB)], [1], []);
    assert map[][1 := ConfigLoader.AsProcess(SpaceA)] == r1.table && [] + [1] == [1];
    assert Step(r0, SpaceA) == Success(r1);
    assert ScanTo(xs, 1) == Success(r1);
    assert r1.table[1 := ConfigLoader.AsProcess(SpaceB)] == r2.table;
    assert Step(r1, SpaceB) == Success(r2);
  }

  /** Two main spaces with the number 1: the later one is the only main process, and no error is raised. */
  lemma {:induction false} LaterDuplicateWins()
    ensures Classify([SpaceA, SpaceB], 100.0, 100.0) == Success(([ConfigLoader.AsProcess(SpaceB)], []))
  {
    var xs := [SpaceA, SpaceB];
    ScanOfDuplicates();
    var raw := Raw(map[1 := ConfigLoader.AsProcess(SpaceB)], [1], []);
    assert ScanTo(xs, |xs|) == Success(raw);
    assert SortedAsc([1]) == [1];
    var mains := SortedMains(raw);
    assert mains == [ConfigLoader.AsProcess(SpaceB)];
    assert Numbers(mains, ConfigLoader.SequenceOf) == [1] == Iota(1);
    assert Ids(mains) == ["b"];
    assert SequenceCheck(mains) == None;
    var all := mains + raw.subs;
    assert all == mains;
    assert FirstDimensionFault(all, 0, 100.0, 100.0) == None;
    assert FirstDimensionFault(all, |all|, 100.0, 100.0) == None;
  }

  /** Entries taken from different spaces with distinct keys have different ids. */
  lemma {:induction false} DistinctSources(xs: seq<Space>, t: map<int, Space>, keys: seq<int>)
    requires Distinct(ConfigLoader.Keys(xs)) && Distinct(keys)
    requires forall k :: 0 <= k < |keys| ==> keys[k] in t
    requires forall v :: v in t ==> exists j :: LastBefore(xs, |xs|, v, j) && t[v] == ConfigLoader.AsProcess(xs[j])
    ensures forall a, b :: 0 <= a < b < |keys| ==> ProcessId(t[keys[a]]) != ProcessId(t[keys[b]])
  {
    forall a, b | 0 <= a < b < |keys|
      ensures ProcessId(t[keys[a]]) != ProcessId(t[keys[b]])
    {
      var ja :| LastBefore(xs, |xs|, keys[a], ja) && t[keys[a]] == ConfigLoader.AsProcess(xs[ja]);
      var jb :| LastBefore(xs, |xs|, keys[b], jb) && t[keys[b]] == ConfigLoader.AsProcess(xs[jb]);
      assert ja != jb;
      assert ConfigLoader.Keys(xs)[ja] != ConfigLoader.Keys(xs)[jb];
    }
  }

  /**
   * The repeated-id check never fires: the ids are the keys of distinct spaces, and each main
   * process comes from a different space.
   */
  lemma {:induction false} NoDuplicateIds(xs: seq<Space>, W: real, H: real)
    requires Distinct(ConfigLoader.Keys(xs))
    ensures !(Classify(xs, W, H).Failure? && Classify(xs, W, H).error.DuplicateIds?)
  {
    ScanOutcome(xs, |xs|);
    if ScanTo(xs, |xs|).Success? {
      var raw := ScanTo(xs, |xs|).value;
      var mains := SortedMains(raw);
      ScanTable(xs, |xs|);
      MainIdsDistinct(xs, raw);
      DimensionOutcome(mains + raw.subs, |mains + raw.subs|, W, H);
    }
  }

  /** The main processes of spaces with distinct keys have distinct ids. */
  lemma {:induction false} MainIdsDistinct(xs: seq<Space>, raw: Raw)
    requires Distinct(ConfigLoader.Keys(xs)) && Distinct(raw.order)
    requires forall v :: v in raw.order ==> v in raw.table
    requires forall v :: v in raw.table ==> exists j :: LastBefore(xs, |xs|, v, j) && raw.table[v] == ConfigLoader.AsProcess(xs[j])
    ensures Distinct(Ids(SortedMains(raw)))
  {
    var keys := SortedAsc(raw.order);
    SortedAscSpec(raw.order);
    DistinctPermutation(raw.order, keys);
    SortedKeysPresent(raw.order, raw.table);
    DistinctSources(xs, raw.table, keys);
  }

  // ---------------------------------------------------------------- lookups and totals

  /** The first process with the given id, searching the list from the front. */
  function FindProcess(ps: seq<Space>, id: string): Result<Space, ClassifyError>
  {
    if ps == [] then Failure(UnknownProcess(id))
    else if ProcessId(ps[0]) == id then Success(ps[0])
    else FindProcess(ps[1..], id)
  }

  predicate HasProcess(ps: seq<Space>, id: string)
  {
    exists k :: 0 <= k < |ps| && ProcessId(ps[k]) == id
  }

  /** The search finds a process iff one has the id, and then the first of them. */
  lemma {:induction false} FindProcessSpec(ps: seq<Space>, id: string)
    ensures FindProcess(ps, id).Success? <==> HasProcess(ps, id)
    ensures FindProcess(ps, id).Success? ==>
      exists k :: 0 <= k < |ps| && ps[k] == FindProcess(ps, id).value && ProcessId(ps[k]) == id &&
        forall j :: 0 <= j < k ==> ProcessId(ps[j]) != id
    ensures FindProcess(ps, id).Failure? ==> FindProcess(ps, id).error == UnknownProcess(id)
  {
    if ps != [] {
      FindProcessSpec(ps[1..], id);
      if ProcessId(ps[0]) != id {
        if HasProcess(ps, id) {
          var k :| 0 <= k < |ps| && ProcessId(ps[k]) == id;
          assert ProcessId(ps[1..][k - 1]) == id;
        }
        if FindProcess(ps, id).Success? {
          var k :| 0 <= k < |ps[1..]| && ps[1..][k] == FindProcess(ps[1..], id).value && ProcessId(ps[1..][k]) == id &&
            forall j :: 0 <= j < k ==> ProcessId(ps[1..][j]) != id;
          assert ps[k + 1] == ps[1..][k];
          assert forall j :: 1 <= j < k + 1 ==> ps[j] == ps[1..][j - 1];
        }
      } else {
        assert ProcessId(ps[0]) == id;
      }
    }
  }

  /** Searching two lists one after the other is searching their concatenation. */
  lemma {:induction false} FindProcessAppend(ps: seq<Space>, qs: seq<Space>, id: string)
    ensures FindProcess(ps + qs, id) == if FindProcess(ps, id).Success? then FindProcess(ps, id) else FindProcess(qs, id)
  {
    if ps == [] {
      assert ps + qs == qs;
    } else {
      assert (ps + qs)[0] == ps[0] && (ps + qs)[1..] == ps[1..] + qs;
      FindProcessAppend(ps[1..], qs, id);
    }
  }

  /** `process['width'] * process['height']`. */
  function Area(p: Space): real
  {
    Width(p) * Height(p)
  }

  function Areas(ps: seq<Space>): (as_: seq<real>)
    ensures |as_| == |ps| && forall k :: 0 <= k < |ps| ==> as_[k] == Area(ps[k])
  {
    seq(|ps|, k requires 0 <= k < |ps| => Area(ps[k]))
  }

  /** `calculate_total_area`. `None` stands for the division by a zero site area. */
  datatype AreaSummary = AreaSummary(mainTotal: real, subTotal: real, allTotal: real, siteTotal: real,
                                     utilizationRatio: Option<real>)

  /** After a successful classification the main total is positive, and so is the total of all processes. */
  lemma {:induction false} ClassifiedAreas(xs: seq<Space>, W: real, H: real)
    requires Classify(xs, W, H).Success?
    ensures var (mains, subs) := Classify(xs, W, H).value;
      Sum(Areas(mains)) > 0.0 && Sum(Areas(subs)) >= 0.0 && Sum(Areas(mains + subs)) > 0.0
  {
    ClassifySpec(xs, W, H);
    var (mains, subs) := Classify(xs, W, H).value;
    FittingAreas(mains, subs, W, H);
  }

  /** Spaces that all fit have a positive total area, when there is at least one main space. */
  lemma {:induction false} FittingAreas(mains: seq<Space>, subs: seq<Space>, W: real, H: real)
    requires |mains| >= 1
    requires forall k :: 0 <= k < |mains + subs| ==> Fits((mains + subs)[k], W, H)
    ensures Sum(Areas(mains)) > 0.0 && Sum(Areas(subs)) >= 0.0 && Sum(Areas(mains + subs)) > 0.0
  {
    FitsSplit(mains, subs, W, H);
    AreaPositive(mains, W, H);
    AreaPositive(subs, W, H);
    SumPositive(Areas(mains), 0);
    SumNonNegative(Areas(subs));
    assert Areas(mains + subs) == Areas(mains) + Areas(subs);
    SumAppend(Areas(mains), Areas(subs));
  }

  lemma {:induction false} FitsSplit(ps: seq<Space>, qs: seq<Space>, W: real, H: real)
    requires forall k :: 0 <= k < |ps + qs| ==> Fits((ps + qs)[k], W, H)
    ensures forall k :: 0 <= k < |ps| ==> Fits(ps[k], W, H)
    ensures forall k :: 0 <= k < |qs| ==> Fits(qs[k], W, H)
  {
    forall k | 0 <= k < |ps|
      ensures Fits(ps[k], W, H)
    {
      assert (ps + qs)[k] == ps[k];
    }
    forall k | 0 <= k < |qs|
      ensures Fits(qs[k], W, H)
    {
      assert (ps + qs)[|ps| + k] == qs[k];
    }
  }

  lemma {:induction false} AreaPositive(ps: seq<Space>, W: real, H: real)
    requires forall k :: 0 <= k < |ps| ==> Fits(ps[k], W, H)
    ensures forall k :: 0 <= k < |Areas(ps)| ==> Areas(ps)[k] > 0.0
  {
    forall k | 0 <= k < |ps|
      ensures Area(ps[k]) > 0.0
    {
      var w, h := Width(ps[k]), Height(ps[k]);
      assert w * h > 0.0;
    }
  }

  // ---------------------------------------------------------------- the classifier object

  class Classifier {
    /** `self.spaces` and the site size from `config['site_dimensions']`. */
    const spaces: seq<Space>
    const siteWidth: real
    const siteHeight: real
    var mainProcesses: seq<Space>
    var subProcesses: seq<Space>

    constructor(spaces: seq<Space>, siteWidth: real, siteHeight: real)
      ensures this.spaces == spaces && this.siteWidth == siteWidth && this.siteHeight == siteHeight
      ensures mainProcesses == [] && subProcesses == []
    {
      this.spaces := spaces;
      this.siteWidth := siteWidth;
      this.siteHeight := siteHeight;
      mainProcesses := [];
      subProcesses := [];
    }

    /** `classify_processes`: on success the lists are stored; on an error nothing changes. */
    method ClassifyProcesses() returns (r: Result<(seq<Space>, seq<Space>), ClassifyError>)
      modifies this
      ensures r == Classify(spaces, siteWidth, siteHeight)
      ensures r.Success? ==> mainProcesses == r.value.0 && subProcesses == r.value.1
      ensures r.Failure? ==> mainProcesses == old(mainProcesses) && subProcesses == old(subProcesses)
    {
      var table: map<int, Space> := map[];
      var order: seq<int> := [];
      var subs: seq<Space> := [];
      for k := 0 to |spaces|
        invariant ScanTo(spaces, k) == Success(Raw(table, order, subs))
      {
        var s := spaces[k];
        if s.buildingType == Some("main") {
          if s.sequence.None? {
            ScanStops(spaces, k + 1, |spaces|);
            return Failure(MissingSequence(s.key));
          }
          var v := s.sequence.value;
          if v !in table {
            order := order + [v];
          }
          table := table[v := ConfigLoader.AsProcess(s)];
        } else if s.buildingType == Some("sub") {
          subs := subs + [ConfigLoader.AsProcess(s)];
        } else if s.buildingType != Some("fixed") {
          ScanStops(spaces, k + 1, |spaces|);
          return Failure(UnsupportedType(s.key, s.buildingType));
        }
      }
      if order == [] {
        return Failure(NoMainProcess);
      }
      var mains := SortedMains(Raw(table, order, subs));
      var sequenceError := SequenceCheck(mains);
      if sequenceError.Some? {
        return Failure(sequenceError.value);
      }
      var dimensionError := ValidateProcessDimensions(mains + subs);
      if dimensionError.Some? {
        return Failure(dimensionError.value);
      }
      mainProcesses := mains;
      subProcesses := subs;
      r := Success((mains, subs));
    }

    /** `_validate_process_dimensions`: the first process that is not positive or does not fit. */
    method ValidateProcessDimensions(ps: seq<Space>) returns (e: Option<ClassifyError>)
      ensures e == FirstDimensionFault(ps, |ps|, siteWidth, siteHeight)
    {
      for k := 0 to |ps|
        invariant FirstDimensionFault(ps, k, siteWidth, siteHeight) == None
      {
        var width, height := Width(ps[k]), Height(ps[k]);
        if width <= 0.0 || height <= 0.0 {
          DimensionStops(ps, k + 1, |ps|, siteWidth, siteHeight);
          return Some(NonPositiveSize(ProcessId(ps[k])));
        }
        if width > siteWidth || height > siteHeight {
          DimensionStops(ps, k + 1, |ps|, siteWidth, siteHeight);
          return Some(ExceedsSite(ProcessId(ps[k])));
        }
      }
      e := None;
    }

    /** `get_main_process_flow`: the main process ids, in chain order. */
    method GetMainProcessFlow() returns (flow: seq<string>)
      ensures |flow| == |mainProcesses|
      ensures forall k :: 0 <= k < |flow| ==> flow[k] == ProcessId(mainProcesses[k])
    {
      if mainProcesses == [] {
        return [];
      }
      flow := Ids(mainProcesses);
    }

    /** `get_process_by_id`: the main processes are searched first, then the sub processes. */
    method GetProcessById(id: string) returns (r: Result<Space, ClassifyError>)
      ensures r == FindProcess(mainProcesses + subProcesses, id)
    {
      FindProcessAppend(mainProcesses, subProcesses, id);
      r := Search(mainProcesses, id);
      if r.Success? {
        return;
      }
      r := Search(subProcesses, id);
    }

    /** `is_main_process`: some main process has the id. */
    predicate IsMainProcess(id: string)
      reads this
      ensures IsMainProcess(id) <==> FindProcess(mainProcesses, id).Success?
    {
      FindProcessSpec(mainProcesses, id);
      HasProcess(mainProcesses, id)
    }

    /** `is_sub_process`: some sub process has the id. */
    predicate IsSubProcess(id: string)
      reads this
      ensures IsSubProcess(id) <==> FindProcess(subProcesses, id).Success?
    {
      FindProcessSpec(subProcesses, id);
      HasProcess(subProcesses, id)
    }

    /** `get_main_process_adjacency`: each main process paired with the next one in the chain. */
    method GetMainProcessAdjacency() returns (pairs: seq<(string, string)>)
      ensures |pairs| == if mainProcesses == [] then 0 else |mainProcesses| - 1
      ensures forall k :: 0 <= k < |pairs| ==>
        pairs[k] == (ProcessId(mainProcesses[k]), ProcessId(mainProcesses[k + 1]))
    {
      pairs := [];
      var k := 0;
      while k < |mainProcesses| - 1
        invariant 0 <= k && (mainProcesses == [] ==> k == 0) && (mainProcesses != [] ==> k <= |mainProcesses| - 1)
        invariant |pairs| == k
        invariant forall j :: 0 <= j < k ==> pairs[j] == (ProcessId(mainProcesses[j]), ProcessId(mainProcesses[j + 1]))
      {
        pairs := pairs + [(ProcessId(mainProcesses[k]), ProcessId(mainProcesses[k + 1]))];
        k := k + 1;
      }
    }

    /** `calculate_total_area`: the area totals, and the share of the site they cover, in percent. */
    method CalculateTotalArea() returns (a: AreaSummary)
      ensures a.mainTotal == Sum(Areas(mainProcesses)) && a.subTotal == Sum(Areas(subProcesses))
      ensures a.allTotal == a.mainTotal + a.subTotal && a.allTotal == Sum(Areas(mainProcesses + subProcesses))
      ensures a.siteTotal == siteWidth * siteHeight
      ensures a.utilizationRatio == if a.siteTotal == 0.0 then None else Some(a.allTotal / a.siteTotal * 100.0)
    {
      var mainTotal, subTotal, allTotal := 0.0, 0.0, 0.0;
      var siteTotal := siteWidth * siteHeight;
      var mains, subs := Areas(mainProcesses), Areas(subProcesses);
      for k := 0 to |mainProcesses|
        invariant mainTotal == Sum(mains[..k]) && allTotal == mainTotal
      {
        assert mains[..k + 1][..k] == mains[..k];
        var area := Width(mainProcesses[k]) * Height(mainProcesses[k]);
        mainTotal := mainTotal + area;
        allTotal := allTotal + area;
      }
      assert mains[..|mains|] == mains;
      for k := 0 to |subProcesses|
        invariant subTotal == Sum(subs[..k]) && allTotal == mainTotal + subTotal
      {
        assert subs[..k + 1][..k] == subs[..k];
        var area := Width(subProcesses[k]) * Height(subProcesses[k]);
        subTotal := subTotal + area;
        allTotal := allTotal + area;
      }
      assert subs[..|subs|] == subs;
      assert Areas(mainProcesses + subProcesses) == mains + subs;
      SumAppend(mains, subs);
      var ratio := if siteTotal == 0.0 then None else Some(allTotal / siteTotal * 100.0);
      a := AreaSummary(mainTotal, subTotal, allTotal, siteTotal, ratio);
    }
  }

  /** The search loop `for process in ps: if process['id'] == id: return process`. */
  method Search(ps: seq<Space>, id: string) returns (r: Result<Space, ClassifyError>)
    ensures r == FindProcess(ps, id)
  {
    for k := 0 to |ps|
      invariant FindProcess(ps, id) == FindProcess(ps[k..], id)
    {
      assert ps[k..][0] == ps[k] && ps[k..][1..] == ps[k + 1..];
      if ProcessId(ps[k]) == id {
        return Success(ps[k]);
      }
    }
    assert ps[|ps|..] == [];
    r := Failure(UnknownProcess(id));
  }
}
