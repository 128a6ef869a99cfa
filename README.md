# Factory layout engine model

A Dafny model of the layout engine of a factory mass-layout optimiser. The engine places the
buildings of a plant as axis-aligned rectangles on a rectangular site that holds fixed zones
(parking, gates, roads, utilities). Main processes form a production chain: process k + 1 is
placed against one side of process k. The engine enumerates or samples every combination of
rotations and attachment sides. It places the sub processes greedily next to them, scored by
SLP closeness ratings (A = 10, E = 8, I = 6, O = 4, U = 2, X = 0, each with a preferred gap).
It checks every candidate layout against hard constraints:

- no overlap;
- inside the site;
- clear of fixed zones;
- hazard distances;
- the main-process order.

It scores the layout with a weighted fitness. An optimisation engine keeps the best solutions
and, for several objectives, a Pareto front.

One module per source file:

| module | source file | form |
|---|---|---|
| `Geometry` | utils/geometry_utils.py | functions and lemmas; loop-built lists as methods |
| `LayoutGenerator` | core/layout_generator.py | methods over `seq` with loop invariants, specified by functions |
| `LayoutGeneratorImproved` | core/layout_generator_improved.py | as above; the random draws are parameters |
| `ConstraintHandler` | core/constraint_handler.py | each `check_*` is a method filling a result, specified by a function |
| `FitnessCalculator` | core/fitness_calculator.py | penalty and bonus loops as methods, the gating as functions |
| `BaseEngine` | optimization/base_engine.py | classes `Engine` and `MultiObjectiveEngine` whose methods update the pool, histories and front |
| `ExhaustiveSearch` | optimization/exhaustive_search.py | class `ExhaustiveSearch` holding the four counters; the search loop with its early stop |
| `ExhaustiveSearchImproved` | optimization/exhaustive_search_improved.py | class `ImprovedExhaustiveSearch`; early termination and the three-tier final ordering |
| `ProcessClassifier` | core/process_classifier.py | class `Classifier` whose `ClassifyProcesses` fills the main and sub lists |
| `ConfigLoader` | core/config_loader.py | class `Loader` whose methods validate and complete the configuration in place |

`Wrappers` (Option, Result), `Collect` (sums and list building), `Sorting` (Python's stable
`sorted`/`sort` and slices), `Numbering` (the rule that sequence numbers are exactly 1..n) and
`Text` (lower-casing, substring tests, `split`) hold what several modules share.

Coordinates and sizes are reals. A Python dictionary with optional keys becomes a datatype with
`Option` fields. An exception becomes the `Failure` case of a `Result`, or `None` where the
source returns `None`.

## Model

| member | source | states |
|---|---|---|
| Geometry.OverlapsSymmetric | utils/geometry_utils.py:14-41 | the overlap test gives the same answer with the two rectangles swapped |
| Geometry.TouchingDoesNotOverlap | utils/geometry_utils.py:37-41 | rectangles that only meet along an edge line (one's right side on the other's left side, or one's bottom on the other's top) do not overlap |
| Geometry.OverlapsIffCommonInteriorPoint | utils/geometry_utils.py:14-41 | for rectangles of positive size the half-open test holds exactly when the open interiors share a point |
| Geometry.OverlapArea | utils/geometry_utils.py:111-134 | the area is never negative, is 0 unless the rectangles overlap, and for rectangles of positive size is the positive product of the two per-axis intersection lengths |
| Geometry.OverlapAreaSymmetric | utils/geometry_utils.py:111-134 | the overlap area does not depend on the order of the two rectangles |
| Geometry.Hypot | utils/geometry_utils.py:64 | the square root of dx² + dy² lies between the larger of abs(dx) and abs(dy) and abs(dx) + abs(dy) |
| Geometry.HypotZero | utils/geometry_utils.py:64 | the root is 0 exactly when both components are 0, and it is the other component's absolute value when one component is 0 |
| Geometry.HypotSymmetric | utils/geometry_utils.py:64 | negating both components keeps the root |
| Geometry.CenterDistance | utils/geometry_utils.py:44-64 | the centre distance is non-negative, is 0 exactly when the centres coincide, and is at least each axis's centre offset |
| Geometry.CenterDistanceSymmetric | utils/geometry_utils.py:44-64 | the centre distance does not depend on the order of the rectangles |
| Geometry.GapX | utils/geometry_utils.py:90-96 | the horizontal gap is non-negative and positive exactly when one rectangle ends strictly left of the other's start |
| Geometry.GapY | utils/geometry_utils.py:98-104 | the vertical gap is non-negative and positive exactly when one rectangle ends strictly above the other's start |
| Geometry.EdgeDistance | utils/geometry_utils.py:67-108 | the distance is 0 for overlapping rectangles and otherwise the root of the squared per-axis gaps; it is 0 exactly when the rectangles overlap or touch on both axes, and never below either gap |
| Geometry.EdgeDistanceSymmetric | utils/geometry_utils.py:67-108 | for rectangles of non-negative size the edge distance does not depend on their order |
| Geometry.EdgeDistanceSideBySide | utils/geometry_utils.py:90-108 | two rectangles whose vertical extents overlap are exactly their horizontal gap apart |
| Geometry.ExtremesOf | utils/geometry_utils.py:217-230 | the minimum x and y and the maximum right and bottom bound every rectangle of a non-empty list, and each is attained by some rectangle |
| Geometry.BoundsEnclose | utils/geometry_utils.py:207-230 | the bounding box is the zero box for no rectangles, encloses every rectangle, and each of its four sides is touched by some rectangle |
| Geometry.Rotate | utils/geometry_utils.py:249-264 | the rotated copy has width and height swapped and the rotation flag negated, with position, id, kind, sequence and name kept |
| Geometry.RotateTwice | utils/geometry_utils.py:259-264 | rotating twice gives back the rectangle |
| Geometry.Translate | utils/geometry_utils.py:267-283 | the moved copy is shifted by exactly (dx, dy) and is otherwise the same rectangle |
| Geometry.TranslatePreservesOverlap | utils/geometry_utils.py:267-283 | moving two rectangles by one offset keeps whether they overlap, both gaps and their edge distance |
| Geometry.TotalArea | utils/geometry_utils.py:345 | the summed area of rectangles of non-negative size is non-negative |
| Geometry.UtilizationRatio | utils/geometry_utils.py:330-350 | the ratio is 0 for no rectangles or a site of no area, and otherwise times the site area gives the summed rectangle area; it is non-negative for non-negative sizes |
| Geometry.Ratio | utils/geometry_utils.py:350 | `part / whole if whole > 0 else 0`: 0 for a non-positive whole, otherwise times the whole gives the part, and never negative for a non-negative part |
| Geometry.Compactness | utils/geometry_utils.py:353-373 | 0 for no rectangles or a bounding box of no area; otherwise times the box's area it gives the summed area; non-negative for non-negative sizes |
| Geometry.SlpScore | utils/geometry_utils.py:418-441 | ratings A/E/I/O (10/8/6/4) score in [0, 300/200/150/100] and reach the top exactly at the preferred gap; U (2) scores 50; X (0) scores at most 100 and is negative exactly when closer than the gap; any other weight scores 0 |
| Geometry.SlpScoreMonotone | utils/geometry_utils.py:418-432 | for the ratings A, E, I and O the score does not rise as the distance moves away from the preferred gap |
| Geometry.AdjacencyScore | utils/geometry_utils.py:402-441 | the score is the rating's score at the pair's centre distance: 50 for U, and for X negative exactly when the centres are closer than the gap |
| Geometry.IsClear | utils/geometry_utils.py:474-479 | the scan with an early `break` answers whether the rectangle overlaps none of the existing ones |
| Geometry.RangeFrom | utils/geometry_utils.py:465-466 | `range(start, limit + 1, step)`: every value lies in [start, limit], value k is start + k·step, the first is start, the last step would pass the limit, and the range is non-empty when start <= limit |
| Geometry.NonOverlappingPositions | utils/geometry_utils.py:444-484 | the nested loops return, column by column, the grid points at which the new rectangle overlaps none of the existing ones |
| Geometry.NonOverlappingPositionsExact | utils/geometry_utils.py:465-484 | a point is returned exactly when it is on the grid and the rectangle placed there is clear of every existing rectangle; for a non-negative size every returned point keeps the rectangle inside the site |
| Geometry.RequiredDistance | utils/geometry_utils.py:527-529 | the required separation is the larger of the two directed table entries, missing entries counting 0 |
| Geometry.CheckMinimumDistances | utils/geometry_utils.py:507-540 | the nested loops report one violation per pair i < j in loop order, as the per-pair check gives |
| Geometry.MinDistancesMet | utils/geometry_utils.py:520-540 | no violation is reported exactly when every pair with a positive requirement is at least that far apart at the edges |
| Geometry.TranslateAll | utils/geometry_utils.py:578-581 | every rectangle of the list is moved by the same offset, in order |
| Geometry.CenterLayout | utils/geometry_utils.py:558-583 | the loop returns the centred layout |
| Geometry.CenteredKeeps | utils/geometry_utils.py:558-583 | centring keeps the length and moves every rectangle by one offset, changing nothing else, so the overlap relation between any two rectangles is kept |
| Geometry.ExtremesTranslated | utils/geometry_utils.py:217-230 | moving every rectangle by (dx, dy) moves the four extremes by the same offset |
| Geometry.BoundsOfTranslated | utils/geometry_utils.py:217-230 | moving every rectangle by one offset moves the bounding box by it and keeps its size |
| Geometry.CenteredBounds | utils/geometry_utils.py:571-583 | after centring, the bounding box sits at the floored offsets `(W - w) // 2`, `(H - h) // 2` with its size unchanged |
| Geometry.FloorDiv | utils/geometry_utils.py:575-576 | Python's `a // b` for positive b: the largest whole number not above a / b |
| Geometry.ValidateLayout | utils/geometry_utils.py:585-629 | the statistics are count, utilisation, compactness and bounds; the layout is valid exactly when there is no violation, exactly when every rectangle is inside the site and no two overlap; the violations are one per rectangle outside, then one per overlapping pair |
| Text.LowerChar | core/fitness_calculator.py:273 | an ASCII capital becomes the small letter 32 code points above it; every other character is kept |
| Text.Lower | core/fitness_calculator.py:273 | `str.lower()` keeps the length and lowers each character by `LowerChar` |
| Text.LowerIdempotent | core/layout_generator_improved.py:198 | lowering twice is lowering once |
| Text.ContainsAt | core/fitness_calculator.py:273 | the substring test `t in s` holds exactly when some window of s spells t |
| Text.ContainsAny | core/layout_generator_improved.py:202-216 | `any(k in s for k in keywords)` holds exactly when some keyword occurs in s |
| Text.SplitOn | core/config_loader.py:320 | `s.split(c)` gives at least one part |
| Text.SplitOnCount | core/config_loader.py:320 | `s.split(c)` gives one part more than s holds separators |
| Text.SplitOnParts | core/config_loader.py:320 | no part of `s.split(c)` holds the separator |
| Text.SplitOnJoins | core/config_loader.py:320 | joining the parts with the separator gives back the string |
| Text.SplitOnTwo | core/config_loader.py:319-322 | a key splits into exactly two parts exactly when it holds the separator once, and it is then the first part, the separator and the second part |
| Text.NatText | core/config_loader.py:290 | the decimal text of a number is never empty, and has two digits or more from 10 on |
| Text.NatTextInjective | core/config_loader.py:290 | different numbers have different decimal texts, so the generated zone ids differ |
| Numbering.Iota | core/config_loader.py:194 | `list(range(1, n + 1))` holds the n values 1, ..., n in order |
| Numbering.IotaDistinct | core/constraint_handler.py:284 | 1, ..., n holds no repetition |
| Numbering.SortedAsc | core/config_loader.py:191 | `sorted` keeps the number of values |
| Numbering.SortedAscSpec | core/config_loader.py:191 | `sorted` gives an ascending reordering of the numbers |
| Numbering.AscendingUnique | core/config_loader.py:191-195 | two ascending lists holding the same numbers equally often are equal |
| Numbering.OneToN | core/config_loader.py:185-199 | the rule "sorted, the numbers are 1..n" holds exactly when each of 1..n occurs once and nothing else occurs |
| Numbering.OneToNDistinct | core/constraint_handler.py:281-302 | numbers that pass the continuity test hold no repetition, so the duplicate test after it finds none |
| Numbering.Numbers | core/constraint_handler.py:285 | the list of numbers has one entry per record, the record's number |
| Numbering.NumbersOfSorted | core/constraint_handler.py:281-285 | sorting records by their number and reading the numbers gives the numbers sorted |
| Numbering.FirstSeenSpec | core/constraint_handler.py:294-297 | the dict's key order holds each number once, exactly the numbers of the list |
| Numbering.RepeatedSpec | core/constraint_handler.py:294-300 | the repeated numbers are listed once each, exactly those occurring more than once, and there are none exactly when nothing repeats |
| Numbering.RepeatedNumbers | core/constraint_handler.py:294-299 | the two counting steps give exactly the repeated numbers |
| Numbering.CountNumbers | core/constraint_handler.py:294-297 | the loop counts each number and records the numbers in the order the dict receives them |
| Numbering.KeepRepeated | core/constraint_handler.py:299 | the comprehension keeps the recorded numbers whose count exceeds 1, in order |
| Sorting.SortDesc | optimization/base_engine.py:89 | the stable descending sort by a key keeps the length |
| Sorting.SortDescSorted | optimization/base_engine.py:89 | the sort's result is sorted by non-increasing key and is a permutation of its input |
| Sorting.SortDescStable | optimization/base_engine.py:89 | stability: for each key value, the elements carrying it keep their input order |
| Sorting.SortDescOfSorted | optimization/base_engine.py:89 | sorting a sorted list leaves it unchanged |
| Sorting.SortDescAppend | optimization/base_engine.py:86-89 | appending to a sorted list and sorting again inserts the element into the list |
| Sorting.InsertDescPermutation | optimization/base_engine.py:86-89 | inserting adds exactly the one element |
| Sorting.Take | optimization/base_engine.py:92-93 | the slice xs[:n] for n >= 0 has n elements, or is the whole list when n exceeds its length |
| Sorting.SliceTo | optimization/exhaustive_search.py:160 | the slice xs[:n] for any integer n is a prefix; for n >= 0 it is the first n elements, and a negative n drops the last -n elements |
| ConfigLoader.SitePriority | core/config_loader.py:58-90 | `site_dimensions` decides alone when present; otherwise a full `grid_width`/`grid_height` pair decides; otherwise `grid_size` gives a square; with none of them the size is missing |
| ConfigLoader.LegacyBuildingType | core/config_loader.py:155-165 | the type set for a legacy space is one of main/sub/fixed; it is main exactly for `main_building`/`production` and fixed exactly for `parking`/`road`/`fixed` |
| ConfigLoader.LegacyTypeIgnoresCase | core/config_loader.py:157 | the legacy mapping gives the same type for two spellings that differ only in letter case |
| ConfigLoader.ValidateSpaceSpec | core/config_loader.py:117-171 | a space passes its check exactly when it is acceptable (both formats' key, size, type and sequence rules); a passing space is checked, a new-format one is unchanged and a legacy one only gains its type |
| ConfigLoader.ConvertSpacesSpec | core/config_loader.py:99-101 | the loop over the spaces succeeds exactly when every space is acceptable, then converting each one in place; on failure the error is that of the first unacceptable space |
| ConfigLoader.ConvertFailsFrom | core/config_loader.py:99-101 | once a space fails its check, the whole loop fails with that error |
| ConfigLoader.ConvertFailsAfter | core/config_loader.py:99-101 | spaces after the first failure do not change the outcome |
| ConfigLoader.SequenceRuleSpec | core/config_loader.py:173-201 | the sequence rule passes exactly when there are main spaces, each carries a number, and their numbers are 1..n each exactly once |
| ConfigLoader.ValidatedConfigSpec | core/config_loader.py:55-115 | a validated document has a positive site size in the `site_dimensions` format, the same spaces under the same keys, each checked, and, when it has main spaces, numbers 1..n on them |
| ConfigLoader.LegacyMainRejected | core/config_loader.py:155-159 | a legacy `main_building`/`production` space without a number makes validation fail with the sequence check's missing-key error, even when every space passes its own check |
| ConfigLoader.WithIds | core/config_loader.py:234-237 | giving spaces their default ids keeps their number |
| ConfigLoader.WithDefaultsSpec | core/config_loader.py:203-237 | after the defaults every optional top-level key is present, a given value is kept, every space has an id, its key when it had none, and applying them twice changes nothing more |
| ConfigLoader.ProcessEntries | core/config_loader.py:246-250 | the process records are exactly the spaces of the type asked for, each with its key as id |
| ConfigLoader.MainProcessesSpec | core/config_loader.py:239-255 | the main processes are the main spaces as records, reordered so that their sequence numbers ascend, equal numbers keeping key order |
| ConfigLoader.NamedZones | core/config_loader.py:288-291 | naming the `fixed_zones` entries keeps their number |
| ConfigLoader.Listed | core/config_loader.py:288-291 | each listed zone becomes one entry of the result, in order |
| ConfigLoader.GeneratedIdsDiffer | core/config_loader.py:290 | different positions give different generated ids |
| ConfigLoader.FixedZonesIds | core/config_loader.py:272-293 | every entry of the fixed-zone list has an id |
| ConfigLoader.FixedZonesGenerated | core/config_loader.py:288-291 | a listed zone without an id gets "fixed_zone_n", n being its position in the result |
| ConfigLoader.FixedZoneAt | core/config_loader.py:280-291 | the k-th listed zone sits after the fixed spaces and, without an id of its own, is named for its position |
| ConfigLoader.FixedZonesApart | core/config_loader.py:288-291 | two listed zones without ids get different generated ids |
| ConfigLoader.FixedZonesUnique | core/config_loader.py:288-291 | no two generated ids of the fixed-zone list are the same |
| ConfigLoader.DefaultRowSpec | core/config_loader.py:309-315 | a row of the initial matrix has the default entry for exactly the other ids seen so far |
| ConfigLoader.InitialRowsSpec | core/config_loader.py:307-315 | before the rules the matrix has a row per id and the default entry (weight 2, gap 100) for every ordered pair of different ids |
| ConfigLoader.RulePairSpec | core/config_loader.py:319-322 | a rule's key names a pair exactly when it holds one '-', and the pair is what lies around it |
| ConfigLoader.ApplyRulePreserves | core/config_loader.py:318-326 | a rule keeps the matrix's rows and its symmetry |
| ConfigLoader.ApplyRulesPreserves | core/config_loader.py:318-326 | all the rules in turn keep the matrix's rows and its symmetry |
| ConfigLoader.ApplyRulesElsewhere | core/config_loader.py:318-326 | the rules leave every entry of a pair none of them names as it was |
| ConfigLoader.ApplyRuleNamed | core/config_loader.py:323-326 | a rule naming two known different ids sets both directions of that pair to the merged entry |
| ConfigLoader.AdjacencyMatrixSpec | core/config_loader.py:295-328 | the matrix has a row for every key with an entry for every other key, is symmetric, and keeps the default entry for every pair no rule names |
| ConfigLoader.Keys | core/config_loader.py:304 | the ids are the space keys in document order |
| ConfigLoader.Loader.constructor | core/config_loader.py:14-22 | a new loader holds no document |
| ConfigLoader.Loader.LoadConfig | core/config_loader.py:24-53 | the result is the document validated with defaults, or the first error; on success the loader holds that document |
| ConfigLoader.Loader.ValidateConfig | core/config_loader.py:55-115 | reports no error exactly when the held document validates, else its first error, and on success holds the validated document |
| ConfigLoader.Loader.ValidateMainProcessSequence | core/config_loader.py:173-201 | the error is the sequence rule's verdict on the held spaces |
| ConfigLoader.Loader.ApplyDefaults | core/config_loader.py:203-237 | the held document becomes itself with the defaults |
| ConfigLoader.Loader.GetMainProcesses | core/config_loader.py:239-255 | not-loaded error without a document, else the main processes in sequence order |
| ConfigLoader.Loader.GetSubProcesses | core/config_loader.py:257-270 | not-loaded error without a document, else the sub spaces as records in key order |
| ConfigLoader.Loader.GetFixedZones | core/config_loader.py:272-293 | not-loaded error without a document, else the fixed-zone list, with the generated ids also written into the held document's `fixed_zones` |
| ConfigLoader.Loader.GetAdjacencyMatrix | core/config_loader.py:295-328 | not-loaded error without a document, else the matrix from the space keys and the weight rules |
| ProcessClassifier.ProcessIdOfSpace | core/process_classifier.py:49-50 | a space's process record has the space's key as id |
| ProcessClassifier.Ids | core/process_classifier.py:110 | the id list has one entry per process, its id |
| ProcessClassifier.ScanTo | core/process_classifier.py:36-64 | after any prefix of the loop, the table's key order lists each key of the table once |
| ProcessClassifier.ScanOutcome | core/process_classifier.py:40-64 | the loop gets through exactly when no space is faulty (a main space without a number, or an unknown type); otherwise it raises the error of the first faulty one |
| ProcessClassifier.ScanStops | core/process_classifier.py:40-64 | once the loop has raised, later spaces change nothing |
| ProcessClassifier.ScanSubs | core/process_classifier.py:53-57 | the sub processes are the sub spaces as records, in input order |
| ProcessClassifier.StepTable | core/process_classifier.py:43-51 | one turn of the loop changes the table only at the number of a main space, where it stores that space's record |
| ProcessClassifier.ScanDomain | core/process_classifier.py:36-51 | the table holds exactly the numbers some main space carries |
| ProcessClassifier.ScanTable | core/process_classifier.py:51 | the entry of a number is the record of the last main space carrying it |
| ProcessClassifier.TableNumbers | core/process_classifier.py:45-51 | every entry of the table carries the number it is stored under |
| ProcessClassifier.SortedMains | core/process_classifier.py:84-95 | `_sort_main_processes` looks up each key in ascending order, one process per key |
| ProcessClassifier.SortedKeysPresent | core/process_classifier.py:87-88 | every sorted key is in the table, so the lookups cannot fail |
| ProcessClassifier.MainsNumbers | core/process_classifier.py:87-100 | the numbers of the sorted processes are the table's keys sorted |
| ProcessClassifier.OneToNMembers | core/process_classifier.py:100-103 | numbers that sort to 1..n are exactly the numbers 1..n |
| ProcessClassifier.DimensionOutcome | core/process_classifier.py:117-137 | the size check passes exactly when every process is positive and fits the site; otherwise it reports the first one that does not |
| ProcessClassifier.DimensionStops | core/process_classifier.py:123-137 | once a process fails the size check, later ones change nothing |
| ProcessClassifier.ClassifySpec | core/process_classifier.py:24-82 | a successful classification has at least one main process, mains numbered 1..n in list order, the sub spaces in input order, and every process positive and fitting the site |
| ProcessClassifier.ClassifyNumbers | core/process_classifier.py:36-107 | after a success the numbers the main spaces use are exactly 1..n, n being the number of main processes |
| ProcessClassifier.ClassifyKeepsLast | core/process_classifier.py:51 | main process k is the last main space carrying number k + 1 |
| ProcessClassifier.ScanOfDuplicates | core/process_classifier.py:51 | two main spaces numbered 1 leave a table holding the second one only |
| ProcessClassifier.LaterDuplicateWins | core/process_classifier.py:51-107 | two main spaces numbered 1 classify without an error, the later one being the only main process |
| ProcessClassifier.DistinctSources | core/process_classifier.py:49-51 | entries taken from different spaces with distinct keys have different ids |
| ProcessClassifier.MainIdsDistinct | core/process_classifier.py:109-111 | the main processes of spaces with distinct keys have distinct ids |
| ProcessClassifier.NoDuplicateIds | core/process_classifier.py:109-113 | for spaces with distinct keys the repeated-id error is never raised |
| ProcessClassifier.FindProcessSpec | core/process_classifier.py:148-161 | the search finds a process exactly when one has the id, and then the first such; otherwise the not-found error |
| ProcessClassifier.FindProcessAppend | core/process_classifier.py:151-161 | searching the mains and then the subs is searching their concatenation |
| ProcessClassifier.Areas | core/process_classifier.py:194 | the area list has one entry per process, its width times its height |
| ProcessClassifier.ClassifiedAreas | core/process_classifier.py:182-202 | after a successful classification the main total is positive, the sub total non-negative and the overall total positive |
| ProcessClassifier.FittingAreas | core/process_classifier.py:182-202 | processes that all fit, at least one of them main, have a positive total area |
| ProcessClassifier.FitsSplit | core/process_classifier.py:75 | the size check on mains plus subs holds for each part |
| ProcessClassifier.AreaPositive | core/process_classifier.py:129 | processes that pass the size check have positive areas |
| ProcessClassifier.Classifier.constructor | core/process_classifier.py:12-22 | a classifier holds its spaces and site size and no processes yet |
| ProcessClassifier.Classifier.ClassifyProcesses | core/process_classifier.py:24-82 | the result is the classification of the spaces; on success the lists are stored, on an error they are unchanged |
| ProcessClassifier.Classifier.ValidateProcessDimensions | core/process_classifier.py:117-139 | the result is the first process that is not positive or does not fit, if any |
| ProcessClassifier.Classifier.GetMainProcessFlow | core/process_classifier.py:141-146 | the main process ids in chain order |
| ProcessClassifier.Classifier.GetProcessById | core/process_classifier.py:148-161 | the first process with the id among the mains, then the subs, or the not-found error |
| ProcessClassifier.Classifier.IsMainProcess | core/process_classifier.py:163-165 | true exactly when some main process has the id |
| ProcessClassifier.Classifier.IsSubProcess | core/process_classifier.py:167-169 | true exactly when some sub process has the id |
| ProcessClassifier.Classifier.GetMainProcessAdjacency | core/process_classifier.py:171-180 | n - 1 pairs for n mains (none for none), pair k being main k and main k + 1 |
| ProcessClassifier.Classifier.CalculateTotalArea | core/process_classifier.py:182-207 | main, sub and overall totals are the sums of the areas, the overall one equal to main plus sub; the site total is width times height; the ratio is the overall total over the site total, in percent |
| ProcessClassifier.Search | core/process_classifier.py:152-154 | the search loop returns the first process with the id, or the not-found error |
| ConstraintHandler.RequiredHazardDistance | core/constraint_handler.py:313-321 | the table entry for (h1, h2), else the one for (h2, h1), else 0; every result is 0 or at least 5 |
| ConstraintHandler.HazardTableOneWay | core/constraint_handler.py:34-47 | no two different hazard kinds are listed in both orders |
| ConstraintHandler.RequiredHazardDistanceSymmetric | core/constraint_handler.py:313-321 | the required distance does not depend on which kind comes first |
| ConstraintHandler.CheckNoOverlaps | core/constraint_handler.py:136-155 | one violation per overlapping pair i < j in loop order, no warnings; valid exactly when no two rectangles overlap, and exactly when nothing is reported |
| ConstraintHandler.OverlapRow | core/constraint_handler.py:146-153 | the inner loop's violations are those of the pairs (i, j) for j after i |
| ConstraintHandler.OverlapsReported | core/constraint_handler.py:145-153 | the overlap check reports nothing exactly when no two rectangles overlap |
| ConstraintHandler.OverlapViolationsExact | core/constraint_handler.py:145-153 | the report lists exactly the overlapping pairs, each with its ids and overlap area |
| ConstraintHandler.CrossedSides | core/constraint_handler.py:166-177 | a rectangle crosses no side of the site exactly when it lies inside it |
| ConstraintHandler.CheckWithinBoundaries | core/constraint_handler.py:157-186 | one violation per rectangle crossing a side, listing the sides; valid exactly when every rectangle lies inside the site, and exactly when nothing is reported |
| ConstraintHandler.OutsideReported | core/constraint_handler.py:166-184 | the boundary check reports nothing exactly when every rectangle lies inside the site |
| ConstraintHandler.CheckNoFixedZoneViolations | core/constraint_handler.py:188-214 | one violation per (rectangle, zone) pair that overlaps, rectangle-major; valid exactly when no rectangle touches a zone's interior |
| ConstraintHandler.HazardPairViolations | core/constraint_handler.py:235-256 | the two tag loops of one pair give the violations of that pair |
| ConstraintHandler.HazardPairClear | core/constraint_handler.py:233-256 | a pair reports nothing exactly when it keeps every separation its tags require |
| ConstraintHandler.HazardViolationExact | core/constraint_handler.py:225-256 | a violation is recorded for a pair exactly when both carry tags, two of their tags need a positive distance and the edge distance falls short of it |
| ConstraintHandler.CheckHazardDistances | core/constraint_handler.py:216-258 | the tag violations of every pair i < j in loop order; valid exactly when every pair keeps its separations |
| ConstraintHandler.HazardRow | core/constraint_handler.py:229-256 | the inner loop's violations are those of the pairs (i, j) for j after i |
| ConstraintHandler.HazardsReported | core/constraint_handler.py:225-256 | the hazard report is empty exactly when every pair keeps its separations |
| ConstraintHandler.MinOf | core/constraint_handler.py:306 | `min` of a non-empty list is one of its elements and no element is smaller |
| ConstraintHandler.MaxOf | core/constraint_handler.py:306 | `max` of a non-empty list is one of its elements and no element is larger |
| ConstraintHandler.CheckMainProcessSequence | core/constraint_handler.py:260-311 | without numbered mains the sequence check passes with the missing-mains warning; otherwise it fails exactly when the numbers are not 1..n each once, its violations come from the sorted numbers, and the info gives the count, continuity and whether numbers repeat |
| ConstraintHandler.SequenceVerdict | core/constraint_handler.py:284-302 | on the sorted numbers: invalid exactly when they are not 1..n, with the repeated numbers as the duplicates |
| ConstraintHandler.ActualSequenceFacts | core/constraint_handler.py:281-299 | the sorted numbers are 1..n exactly when the numbering rule holds, repeat a number exactly when the mains' numbers do, and 1..n repeats none |
| ConstraintHandler.SequenceRepeats | core/constraint_handler.py:293-299 | the sorted numbers repeat a number exactly when the numbers do, and 1..n repeats none |
| ConstraintHandler.NumberingMeaning | core/constraint_handler.py:281-290 | the sequence check passes exactly when each of 1..n is the number of exactly one numbered main and no other number occurs |
| ConstraintHandler.CheckMinimumSpacing | core/constraint_handler.py:435-463 | violations for the non-overlapping pairs closer than the minimum, in loop order; valid exactly when the layout is spaced apart |
| ConstraintHandler.SpacingRow | core/constraint_handler.py:445-461 | the inner loop's violations are those of the pairs (i, j) for j after i |
| ConstraintHandler.SpacingReported | core/constraint_handler.py:444-461 | the spacing check reports nothing exactly when every non-overlapping pair is at least the minimum apart |
| ConstraintHandler.IsValid | core/constraint_handler.py:50-71 | true exactly for a non-empty layout with no overlaps, inside the site, clear of the zones and keeping the hazard distances (the numbering is not checked) |
| ConstraintHandler.Combine | core/constraint_handler.py:114-121 | the collecting loop gives: valid exactly when every result is, the failed results' violations in order, and all warnings in order |
| ConstraintHandler.ValidateLayout | core/constraint_handler.py:73-134 | an empty layout is invalid with the single empty-layout violation; otherwise valid exactly when the five checks pass, with their violations in order, the missing-mains warning only when no main is numbered, and the statistics of the layout |
| ConstraintHandler.RunChecks | core/constraint_handler.py:96-110 | the five check results, each the named check of the layout |
| ConstraintHandler.ChecksValid | core/constraint_handler.py:114-118 | all five results pass exactly when each does, and then nothing is collected |
| ConstraintHandler.CombinedFive | core/constraint_handler.py:115-121 | over five results the loop collects the violations and the warnings of the first to the fifth, in that order |
| FitnessCalculator.CalculateOverlapPenalty | core/fitness_calculator.py:100-110 | the loops sum the overlap area of every overlapping pair i < j, which is the overlap penalty |
| FitnessCalculator.OverlapRow | core/fitness_calculator.py:105-108 | the inner loop adds the overlap areas of the pairs (i, j) for j after i |
| FitnessCalculator.OverlapPenaltySpec | core/fitness_calculator.py:100-110 | the overlap penalty is never negative and is 0 without overlaps; for rectangles of positive size it is 0 exactly when no two overlap |
| FitnessCalculator.ExcessSpec | core/fitness_calculator.py:116-131 | a rectangle of non-negative size has a non-negative overflow area; one of positive size has none exactly when it lies inside the site |
| FitnessCalculator.CalculateBoundaryPenalty | core/fitness_calculator.py:112-133 | the loop sums each rectangle's overflow area, which is the boundary penalty |
| FitnessCalculator.BoundaryPenaltySpec | core/fitness_calculator.py:112-133 | for non-negative sizes the penalty is never negative; for positive sizes it is 0 exactly when every rectangle lies inside the site |
| FitnessCalculator.CalculateFixedZonePenalty | core/fitness_calculator.py:135-145 | the loops sum twice the overlap area of every overlapping (rectangle, zone) pair, which is the fixed-zone penalty |
| FitnessCalculator.ZoneRow | core/fitness_calculator.py:140-143 | the loop over the zones adds twice each overlap of the rectangle with a zone |
| FitnessCalculator.ZoneStep | core/fitness_calculator.py:141-143 | one more zone adds twice its overlap with the rectangle, if they overlap |
| FitnessCalculator.FixedZonePenaltySpec | core/fitness_calculator.py:135-145 | the fixed-zone penalty is never negative and is 0 when no rectangle meets a zone; for rectangles and zones of positive size it is 0 exactly then |
| FitnessCalculator.CalculateAdjacencyFitness | core/fitness_calculator.py:147-172 | the loops sum the rating score of every pair i < j, which is the adjacency fitness |
| FitnessCalculator.AdjacencyRowsStep | core/fitness_calculator.py:151-170 | one more row of the outer loop adds that row's total |
| FitnessCalculator.AdjacencyRow | core/fitness_calculator.py:152-170 | the inner loop adds the pair scores of the pairs (i, j) for j after i |
| FitnessCalculator.PairAdjacency | core/fitness_calculator.py:153-170 | the loop body's score is what the pair adds to its row: the rating looked up under either key order, defaulting to U with a gap of 100 |
| FitnessCalculator.AdjacencyRowStep | core/fitness_calculator.py:152-170 | one more pair of the row adds its rating score |
| FitnessCalculator.PairScoreBounds | core/fitness_calculator.py:156-169 | one pair scores at most 300, at least 0 unless rated X, and 50 when neither key order has an entry |
| FitnessCalculator.AdjacencyFitnessBounds | core/fitness_calculator.py:147-172 | the fitness is at most 300 per pair, at least 0 without an X rating, and 50 per pair when no pair has an entry |
| FitnessCalculator.UnitLength | core/fitness_calculator.py:227-228 | the length a step is divided by is at least 1 |
| FitnessCalculator.AxisStepExact | core/fitness_calculator.py:227-228 | an axis-parallel step has an exactly known length |
| FitnessCalculator.ScaledLength | core/fitness_calculator.py:227-233 | a step divided by max(1, its length) is no longer than 1, and exactly 1 long when the step is at least 1 long |
| FitnessCalculator.UnitBound | core/fitness_calculator.py:227-233 | the scaled step of an exactly known length is no longer than 1, and a unit vector when the step is at least 1 long |
| FitnessCalculator.DotBounded | core/fitness_calculator.py:236 | two vectors no longer than 1 have a dot product in [-1, 1] |
| FitnessCalculator.ConsistencyOfUnits | core/fitness_calculator.py:236-239 | for vectors no longer than 1, (u . v + 1) / 2 lies in [0, 1], is 1 for equal unit vectors and 0 for opposite ones |
| FitnessCalculator.ConsistencyRange | core/fitness_calculator.py:212-239 | with exactly known step lengths the direction consistency lies in [0, 1] |
| FitnessCalculator.ConsistencyReversed | core/fitness_calculator.py:212-239 | a step at least 1 long followed by the step straight back has consistency 0 |
| FitnessCalculator.UnitOpposite | core/fitness_calculator.py:227-233 | scaling the reversed step gives the reversed scaled step |
| FitnessCalculator.CalculateSequenceBonus | core/fitness_calculator.py:174-210 | the loop over the links of the sorted mains sums the link bonuses, which is the sequence bonus |
| FitnessCalculator.LinkBonusBounds | core/fitness_calculator.py:192-208 | with exactly known step lengths the first n links earn between 0 and 250 each |
| FitnessCalculator.LinkBonusRange | core/fitness_calculator.py:197-206 | one link earns between 0 and 200 for closeness plus up to 50 for direction |
| FitnessCalculator.SequenceBonusBounds | core/fitness_calculator.py:174-210 | the bonus is 0 with fewer than two mains; with exactly known step lengths it lies between 0 and 250 per main |
| FitnessCalculator.UtilizationBonusShape | core/fitness_calculator.py:241-254 | for a non-negative ratio the bonus lies in [0, 200]; it is 200 exactly on [0.4, 0.7], 0 at 0 and from 1.2 on, rising before the plateau and falling after it |
| FitnessCalculator.NearestRoadSpec | core/fitness_calculator.py:270-277 | no nearest road exactly when no zone is a road; otherwise a non-negative distance that some road attains and no road undercuts |
| FitnessCalculator.FindNearestRoad | core/fitness_calculator.py:270-275 | the loop over the zones gives the nearest road's edge distance, `inf` standing for none |
| FitnessCalculator.CalculateAccessibilityBonus | core/fitness_calculator.py:264-282 | the loop sums each rectangle's road bonus, which is the accessibility bonus |
| FitnessCalculator.AccessibilityBonusBounds | core/fitness_calculator.py:264-282 | each rectangle earns between 0 and 100, and without a road zone the bonus is 0 |
| FitnessCalculator.AccessAtRoad | core/fitness_calculator.py:277-280 | a rectangle touching a road zone earns the full 100 |
| FitnessCalculator.RequiredDistanceAgrees | core/fitness_calculator.py:295-322 | the fitness requirement is symmetric, and every positive one equals the constraint handler's requirement for the same tags |
| FitnessCalculator.PairHazardPenalty | core/fitness_calculator.py:313-329 | the tag loops of one pair sum that pair's shortfall terms |
| FitnessCalculator.TagRow | core/fitness_calculator.py:316-329 | the innermost loop sums the terms of one tag against every tag of the other |
| FitnessCalculator.TagStep | core/fitness_calculator.py:321-329 | one more tag adds twice the shortfall below the requirement, if there is one |
| FitnessCalculator.CalculateHazardPenalty | core/fitness_calculator.py:284-331 | the loops sum the shortfall terms of every pair i < j, which is the hazard penalty |
| FitnessCalculator.HazardRow | core/fitness_calculator.py:309-329 | the loop over the later rectangles sums the terms of the pairs (i, j) |
| FitnessCalculator.HazardRowStep | core/fitness_calculator.py:309-329 | one more pair of the row adds that pair's terms |
| FitnessCalculator.PairHazardSpec | core/fitness_calculator.py:313-329 | a pair adds only positive terms, and none exactly when it keeps its separations |
| FitnessCalculator.HazardPenaltySpec | core/fitness_calculator.py:284-331 | the hazard penalty is never negative and is 0 exactly when every pair keeps its separations |
| FitnessCalculator.HazardSafeMeansNoPenalty | core/fitness_calculator.py:295-329 | a layout the constraint handler finds hazard-safe for the same tags carries no hazard penalty |
| FitnessCalculator.CalculateFitness | core/fitness_calculator.py:51-98 | the result is the fitness of the layout |
| FitnessCalculator.PenaltiesNonNegative | core/fitness_calculator.py:67-85 | the penalties are never negative when no rectangle has a negative size |
| FitnessCalculator.ScoreSign | core/fitness_calculator.py:72-98 | without fatal penalties the score is at least 0; with non-negative penalties it is below 0 exactly when they are fatal |
| FitnessCalculator.FitnessGate | core/fitness_calculator.py:61-98 | the empty layout scores 0; a layout without fatal penalties scores at least 0; for non-negative sizes a layout scores below 0 exactly when it is non-empty and fatally flawed |
| FitnessCalculator.FeasibleBeatsInfeasible | core/fitness_calculator.py:72-98 | any layout without fatal penalties outscores any fatally flawed one |
| FitnessCalculator.FitnessFeasible | core/fitness_calculator.py:51-98 | for positive sizes a non-empty layout scores at least 0 exactly when it has no overlaps, lies inside the site and meets no fixed zone |
| FitnessCalculator.ViolationsSpec | core/fitness_calculator.py:361-369 | each violation kind is listed once, exactly when its penalty is above 0 |
| FitnessCalculator.BreakdownFromSpec | core/fitness_calculator.py:345-412 | the total is never negative; it is the score without violations, and 0 with one, so a fatally flawed layout is reported 0 while it scores below 0 and a layout whose only flaw is a hazard shortfall is reported 0; the weighted parts add up to the weighted score |
| FitnessCalculator.BreakdownSpec | core/fitness_calculator.py:333-412 | the breakdown's total is never negative, equals the fitness for the empty layout and for one without violations, and is 0 above a negative fitness for a fatally flawed one |
| FitnessCalculator.RequirementsFromSpec | core/fitness_calculator.py:484-503 | all critical requirements are met exactly when there is no violation and no penalty, and then the breakdown total is the score; all requirements met implies the critical ones |
| FitnessCalculator.RequirementsMeaning | core/fitness_calculator.py:479-505 | the requirements exist exactly for non-empty layouts; for positive sizes the critical ones are the geometric and hazard conditions |
| FitnessCalculator.Fixes | core/fitness_calculator.py:448-457 | one fix per violation, in the violations' order |
| FitnessCalculator.FixesSpec | core/fitness_calculator.py:448-457 | a fix is listed exactly when its violation is, and nothing but fixes |
| FitnessCalculator.BonusSuggestionsSpec | core/fitness_calculator.py:460-475 | an improvement is listed exactly when its bonus is below its threshold, and none exactly when every bonus reaches it |
| FitnessCalculator.SuggestionsFromSpec | core/fitness_calculator.py:441-477 | the suggestions name exactly the violations and the bonuses below their thresholds; with non-negative penalties there are none exactly when every requirement is met |
| FitnessCalculator.SuggestionsFromRequirements | core/fitness_calculator.py:441-505 | with non-negative penalties a fix is suggested exactly when its critical requirement fails and an improvement exactly when its goal is missed |
| FitnessCalculator.SuggestionsMatchRequirements | core/fitness_calculator.py:441-505 | for non-negative sizes a layout gets no suggestion exactly when it meets every requirement |
| FitnessCalculator.CompareBreakdownsSpec | core/fitness_calculator.py:420-437 | the first wins exactly when it scores strictly more; the difference is the distance of the totals; each category's difference is the second's bonus minus the first's; swapping the layouts keeps the difference and, unless the totals tie, swaps the winner |
| FitnessCalculator.CompareLayoutsSpec | core/fitness_calculator.py:414-439 | the comparison exists exactly when both layouts are non-empty, and compares their breakdown totals, both at least 0 |
| LayoutGenerator.CreateRectRotation | core/layout_generator.py:178-198 | the rotated rectangle of a process is the unrotated one turned by `rotate_rectangle`; both carry the process's id and area and record the rotation |
| LayoutGenerator.ParseDirection | core/layout_generator.py:211-224 | a string that names a side gives that side; any other string gives none |
| LayoutGenerator.ParseDirectionName | core/layout_generator.py:211-222 | each side's name reads back as that side |
| LayoutGenerator.PlaceAdjacentNamed | core/layout_generator.py:200-226 | None exactly for a name that is not one of the four sides; otherwise the placement against the named side |
| LayoutGenerator.PlaceAdjacentTouches | core/layout_generator.py:200-226 | the placed rectangle is the process's rectangle (sizes swapped iff rotated), touches the reference on the named side with the side's first corners aligned, never overlaps it, and for non-negative sizes lies at edge distance 0 |
| LayoutGenerator.PlaceAdjacentTranslate | core/layout_generator.py:207-226 | placing against a moved reference gives the moved placement |
| LayoutGenerator.Pow | core/layout_generator.py:89 | a power of a positive base is at least 1 |
| LayoutGenerator.Bits | core/layout_generator.py:90-93 | the rotation vector of an index has one flag per process |
| LayoutGenerator.BitsAt | core/layout_generator.py:92 | flag j of the vector for index i is bit j of i |
| LayoutGenerator.BitsRoundTrip | core/layout_generator.py:89-93 | reading the flags of index i < 2^n back as a binary number gives i |
| LayoutGenerator.BitsOfValue | core/layout_generator.py:89-93 | every flag vector is the vector of its own binary value, which is below 2^n |
| LayoutGenerator.RotationVectorsExact | core/layout_generator.py:85-95 | there are exactly 2^n rotation vectors, all of length n, all different, and every vector of n flags is one of them |
| LayoutGenerator.RotationCombinations | core/layout_generator.py:85-95 | the two nested loops produce the rotation vectors of index 0 .. 2^n - 1 in order |
| LayoutGenerator.DirectionIndex | core/layout_generator.py:102 | every side has a position below 4 in `['bottom', 'right', 'top', 'left']` |
| LayoutGenerator.Digits | core/layout_generator.py:106-110 | the direction vector of an index has one side per link |
| LayoutGenerator.DigitsRoundTrip | core/layout_generator.py:105-110 | reading the sides of index i < 4^k back as base-4 digits gives i |
| LayoutGenerator.DigitsOfValue | core/layout_generator.py:105-110 | every side vector is the vector of its own base-4 value, which is below 4^k |
| LayoutGenerator.DirectionVectorsExact | core/layout_generator.py:97-113 | there are exactly 4^k direction vectors, all of length k, all different, every vector of k sides is one of them, and for k = 0 the only one is empty |
| LayoutGenerator.DirectionCombinations | core/layout_generator.py:97-113 | the loops produce the direction vectors of index 0 .. 4^k - 1 in order, `temp % 4` picking a side and `temp //= 4` shifting |
| LayoutGenerator.IsValidPlacement | core/layout_generator.py:228-244 | true exactly when the rectangle overlaps no placed rectangle and no fixed zone |
| LayoutGenerator.PlacementIgnoresSite | core/layout_generator.py:228-244 | with nothing in its way a rectangle wholly outside the site still passes the placement test |
| LayoutGenerator.ValidateCompleteLayout | core/layout_generator.py:246-266 | true exactly for a non-empty layout with no overlapping pair which, under the strict flag, also lies inside the site |
| LayoutGenerator.Chain | core/layout_generator.py:137-170 | a chain that gets through has one rectangle per process placed so far |
| LayoutGenerator.ChainNoneStays | core/layout_generator.py:150-168 | once a chain has failed, no longer chain succeeds |
| LayoutGenerator.ChainShape | core/layout_generator.py:137-170 | a complete chain starts with the first rectangle, each further one touches its predecessor on the chosen side with the chosen rotation, no two overlap and none overlaps a fixed zone |
| LayoutGenerator.FinishComplete | core/layout_generator.py:173-176 | the final check never rejects a complete chain: every complete chain is returned, centred |
| LayoutGenerator.PlaceChain | core/layout_generator.py:134-176 | the loop tests the first rectangle, places and tests each further process against its predecessor, validates without the boundary check and centres the result |
| LayoutGenerator.PlaceSequentially | core/layout_generator.py:115-176 | the result is the sequential layout of the processes: None for no processes, else the first rectangle at (W//2 - w//2, H//2 - h//2) with `rotations[0]` followed by the chain |
| LayoutGenerator.CenteredLinked | core/layout_generator.py:268-295 | centring a chain keeps it a chain whose first rectangle is the old one moved, and keeps it overlap-free |
| LayoutGenerator.FinishShape | core/layout_generator.py:137-176 | a successful placement is a chain of one rectangle per process with the first one moved in front, without overlaps, and with its bounding box at the floored centre of the site |
| LayoutGenerator.SequentialLayoutLinks | core/layout_generator.py:137-170 | rectangle i of a placed layout is process i with `rotations[i]`, and touches rectangle i - 1 on side `directions[i - 1]` |
| LayoutGenerator.ShiftedLinks | core/layout_generator.py:156-160 | the chain relation over the remaining processes, read with the indices of the whole list |
| LayoutGenerator.LinkedRects | core/layout_generator.py:163-165 | every rectangle after the first is its process's rectangle with its rotation |
| LayoutGenerator.CenteringCanEnterZone | core/layout_generator.py:167-174 | on a 100 x 100 site with a 5 x 10 zone at (40, 45), two 10 x 10 processes side by side pass every test and centring moves the first one onto the zone |
| LayoutGenerator.TryPlacement | core/layout_generator.py:69-74 | one iteration of the loop yields the layout these vectors place, if any, and at most one |
| LayoutGenerator.GenerateMainLayoutCombinations | core/layout_generator.py:39-83 | the layouts are those placed by every (rotation, direction) pair in loop order, and the attempts number 2^n x 4^(n-1), none for no processes |
| LayoutGenerator.AttemptAll | core/layout_generator.py:67-74 | the outer loop tries every rotation vector against every direction vector, counting the attempts |
| LayoutGenerator.AttemptRow | core/layout_generator.py:68-74 | the inner loop tries one rotation vector against every direction vector |
| LayoutGenerator.GeneratedLayoutsSound | core/layout_generator.py:39-83 | every generated layout is the placement of some rotation vector and direction vector, has one rectangle per process and is overlap-free |
| LayoutGenerator.AttemptedSome | core/layout_generator.py:73-74 | a layout an attempt yields is the sequential layout of its vectors |
| LayoutGenerator.GeneratedLayoutsComplete | core/layout_generator.py:39-83 | every layout that some rotation vector and direction vector place is generated |
| LayoutGenerator.MaxAdjacencyWeight | core/layout_generator.py:345-358 | the key is never below 0 and at least the rating between the sub process and each main rectangle, under both key orders |
| LayoutGenerator.MaxAdjacencyWeightAttained | core/layout_generator.py:345-358 | the key is 0 or the rating of some pair in one of the key orders |
| LayoutGenerator.GetMaxAdjacencyWeight | core/layout_generator.py:345-358 | the loop taking `max(max_weight, weight1, weight2)` per main rectangle computes that key |
| LayoutGenerator.SortSubProcessesOrder | core/layout_generator.py:339-360 | the sorted sub processes are a permutation of the input in non-increasing key order, processes with equal keys keeping their input order |
| LayoutGenerator.PositionScoreBounds | core/layout_generator.py:434-479 | each placed rectangle adds at most 300; without an X rating no term is negative; with every pair rated U the score is exactly 50 per rectangle |
| LayoutGenerator.PairRatingDefault | core/layout_generator.py:451-453 | a pair with no entry under either key order is rated U with a gap of 100 |
| LayoutGenerator.SubPositionScore | core/layout_generator_improved.py:763-790 | the improved score loop, one `calculate_adjacency_score` per rectangle, computes the position score |
| LayoutGenerator.InlineSubPositionScore | core/layout_generator.py:434-479 | the baseline loop with the rating tiers written out computes the same score as the improved loop |
| LayoutGenerator.Trunc | core/layout_generator.py:422-423 | `int(v)` truncates toward zero: the result is within 1 of v on the side of 0 |
| LayoutGenerator.GenerateGridPositions | core/layout_generator.py:410-432 | the loops produce the grid candidates, unrotated first, column by column |
| LayoutGenerator.GridIndexFits | core/layout_generator.py:422-428 | an index inside the loop range keeps the point plus the size within the extent when the size fits |
| LayoutGenerator.GridForInSite | core/layout_generator.py:418-430 | every grid candidate is the sub process's rectangle with the asked rotation at a non-negative point, inside the site along each side it fits |
| LayoutGenerator.GridRectInSite | core/layout_generator.py:422-429 | a grid point inside the loop ranges keeps the rectangle inside the site along each side it fits |
| LayoutGenerator.GridPoint | core/layout_generator.py:425-430 | the candidate at grid point (i, j) is the rectangle at (i g, j g), not negative for i, j >= 0 |
| LayoutGenerator.GenerateCandidatePositions | core/layout_generator.py:386-408 | the loops produce the side placements against every placed rectangle, then the grid candidates |
| LayoutGenerator.CandidatesOfSub | core/layout_generator.py:386-408 | every candidate is the sub process's rectangle and either touches a placed rectangle or is a grid candidate |
| LayoutGenerator.FirstBest | core/layout_generator.py:368-384 | the chosen index, if any, is one of the candidates looked at |
| LayoutGenerator.FirstBestSpec | core/layout_generator.py:368-384 | nothing is chosen exactly when no candidate passes; otherwise the chosen one passes, scores strictly more than every passing candidate before it and at least as much as every passing one after it |
| LayoutGenerator.FindOptimalSubPosition | core/layout_generator.py:362-384 | the result is the best valid candidate of the generated ones |
| LayoutGenerator.ChooseBest | core/layout_generator.py:374-384 | the loop over the candidates keeps the first valid one of highest score |
| LayoutGenerator.AddSubProcess | core/layout_generator.py:327-335 | one iteration appends the best position of the sub process, if there is one |
| LayoutGenerator.PlaceSubProcessesOptimally | core/layout_generator.py:297-337 | the result is the main layout followed by the best positions of the sub processes in adjacency order |
| LayoutGenerator.PlaceInOrder | core/layout_generator.py:326-335 | the loop over the ordered sub processes gives the layout they place |
| LayoutGenerator.PlaceSubsGrows | core/layout_generator.py:315-337 | placing keeps the main layout as a prefix, adds at most one rectangle per sub process, and each added rectangle passes the placement test against everything before it |
| LayoutGenerator.ChooserValid | core/layout_generator.py:374-384 | every position the baseline chooses passes the placement test against the layout it extends |
| LayoutGenerator.BestPositionValid | core/layout_generator.py:374-384 | the chosen position, if any, passes the placement test |
| LayoutGenerator.ValidExtension | core/layout_generator.py:326-335 | a layout extended by valid placements stays overlap-free and its added rectangles are clear of the zones |
| LayoutGenerator.PlaceSubsSound | core/layout_generator.py:297-337 | with a chooser that picks only valid placements, the added rectangles are clear of every zone and an overlap-free main layout stays overlap-free |
| LayoutGenerator.CalcDirectionSwap | core/layout_generator.py:531-546 | seen from the other rectangle the direction is the opposite one exactly when the centres differ (a tie reads as vertical) |
| LayoutGenerator.DirectionOfPlacement | core/layout_generator.py:531-546 | for positive sizes the direction computed for a placed pair is the side it was placed on exactly when the sizes satisfy `ReadsBack` |
| LayoutGenerator.ContactLength | core/layout_generator.py:548-558 | the contact length is never negative, and is 0 or the overlap of the x or of the y projections |
| LayoutGenerator.ContactLengthSymmetric | core/layout_generator.py:548-558 | the contact length does not depend on the order of the two rectangles |
| LayoutGenerator.ContactOfPlacement | core/layout_generator.py:548-558 | a rectangle placed against a reference touches it along the shorter of the two facing sides |
| LayoutGenerator.CodeParts | core/layout_generator.py:500-527 | the first part is the first main's id and rotation letter, and part k the link code from main k - 1 to main k |
| LayoutGenerator.GenerateLayoutCode | core/layout_generator.py:481-529 | the loop builds the layout code |
| LayoutGenerator.MainsInOrderSpec | core/layout_generator.py:490-498 | the ordered mains are the layout's main rectangles with their multiplicities, in non-decreasing sequence order, equal numbers keeping layout order |
| LayoutGenerator.LayoutCodeEnds | core/layout_generator.py:500-529 | with a main process the code starts with the first main's id and rotation letter and ends with the last main's rotation letter |
| LayoutGenerator.LayoutCodeCases | core/layout_generator.py:486-496 | the code is empty exactly for the empty layout, and "NO_MAIN_PROCESSES" exactly for a non-empty layout without mains |
| LayoutGenerator.NoMains | core/layout_generator.py:490-496 | there is no main to order exactly when no rectangle is a main |
| LayoutGeneratorImproved.SeedCandidates | core/layout_generator_improved.py:138-170 | nine candidate positions before the validity filter: the centre, four corners inside a 50 m margin, four third points |
| LayoutGeneratorImproved.SeedCandidatesSpec | core/layout_generator_improved.py:148-170 | the centre candidate centres the process on the site within 1 m; each corner candidate keeps it 50 m from both sides of its corner; each third-point candidate centres it on its third within 1 m |
| LayoutGeneratorImproved.IsValidSeedPlacement | core/layout_generator_improved.py:582-595 | true exactly when the rectangle lies inside the site and overlaps no fixed zone |
| LayoutGeneratorImproved.GenerateStrategicSeedPositions | core/layout_generator_improved.py:138-179 | returns the candidates whose rectangle is a valid seed, in candidate order |
| LayoutGeneratorImproved.ZoneScore | core/layout_generator_improved.py:196-220 | one fixed zone's term lies in [-75, 120]; it is 0 for a zone with no parking, gate or utility keyword; beyond 500 m only the parking (-20) and gate (-15) penalties remain |
| LayoutGeneratorImproved.ZoneScores | core/layout_generator_improved.py:193-220 | the zone terms of n zones sum to between -75n and 120n |
| LayoutGeneratorImproved.PlainZonesScoreNothing | core/layout_generator_improved.py:196-220 | zones whose names and ids carry none of the keywords add nothing to a seed's score |
| LayoutGeneratorImproved.CentreScore | core/layout_generator_improved.py:223-236 | the centring term is one of 60, 30, -30 or 0; a rectangle centred on the site earns 30 |
| LayoutGeneratorImproved.ExpansionScore | core/layout_generator_improved.py:239-249 | +40 exactly when more than 100 m are free on every side; -20 exactly when less than 30 m are free on some side; otherwise 0 |
| LayoutGeneratorImproved.SeedScoreRange | core/layout_generator_improved.py:189-252 | every seed score lies between -75 per zone minus 50 and 120 per zone plus 100 |
| LayoutGeneratorImproved.ScoreSeedPosition | core/layout_generator_improved.py:189-252 | the scoring loop for one position computes the seed score of the process placed there |
| LayoutGeneratorImproved.ScoreAgainstZone | core/layout_generator_improved.py:196-220 | the three zone tests of the loop compute that zone's term |
| LayoutGeneratorImproved.ScoredPositions | core/layout_generator_improved.py:189-252 | one scored entry per position |
| LayoutGeneratorImproved.ScoredPositionsSpec | core/layout_generator_improved.py:189-252 | entry k holds position k and the score of the process placed there |
| LayoutGeneratorImproved.SelectOptimalSeedPositions | core/layout_generator_improved.py:181-257 | the selection loop computes the top-five selection of the scored positions |
| LayoutGeneratorImproved.SelectSeedsTop | core/layout_generator_improved.py:254-257 | min(5, n) positions are selected, each a candidate, in ranking order; the ranking is a permutation of the scored positions sorted by non-increasing score, so no position left out outscores a selected one |
| LayoutGeneratorImproved.TopCoordinates | core/layout_generator_improved.py:254-257 | the coordinates of the first five ranked entries are candidates, in ranking order |
| LayoutGeneratorImproved.RankedFromCandidates | core/layout_generator_improved.py:254 | every ranked entry carries the coordinates of a candidate |
| LayoutGeneratorImproved.SeedList | core/layout_generator_improved.py:127-133 | one seed per selected position, in order, all with the same rotation |
| LayoutGeneratorImproved.GenerateSeedStrategies | core/layout_generator_improved.py:115-136 | the loop over both rotation states computes the seed strategies |
| LayoutGeneratorImproved.SeedsWithRotation | core/layout_generator_improved.py:121-133 | one pass of that loop yields the seeds of the best valid positions for one rotation state |
| LayoutGeneratorImproved.MakeSeeds | core/layout_generator_improved.py:127-133 | the inner loop makes one strategy per selected position |
| LayoutGeneratorImproved.SeedStrategiesValid | core/layout_generator_improved.py:115-136 | at most ten seeds, the unrotated ones first; each is one of the nine strategic positions and puts the first process inside the site, clear of every fixed zone |
| LayoutGeneratorImproved.SeedsValid | core/layout_generator_improved.py:121-133 | at most five seeds per rotation state, each with that rotation, valid and a strategic position |
| LayoutGeneratorImproved.SeedListFrom | core/layout_generator_improved.py:127-133 | seeds made from valid candidate positions are valid candidate seeds |
| LayoutGeneratorImproved.SelectedFrom | core/layout_generator_improved.py:181-257 | the selection keeps at most five of the given positions |
| LayoutGeneratorImproved.RotatedArea | core/layout_generator_improved.py:284-290 | a process's counted area is width times height whether or not it is rotated |
| LayoutGeneratorImproved.AreaSumIgnoresRotation | core/layout_generator_improved.py:284-297 | the area test gives the same total for every rotation vector |
| LayoutGeneratorImproved.LongCount | core/layout_generator_improved.py:310-318 | at most n of n shapes are long |
| LayoutGeneratorImproved.IsViableRotationCombination | core/layout_generator_improved.py:280-322 | the three tests, in order, decide viability: area within 80% of the free site, every shape fits the site, at most half the shapes longer than 3:1 |
| LayoutGeneratorImproved.TotalProcessArea | core/layout_generator_improved.py:284-290 | the area loop sums the counted areas |
| LayoutGeneratorImproved.AllFit | core/layout_generator_improved.py:301-307 | true exactly when every turned shape fits the site's width and height |
| LayoutGeneratorImproved.CountLongShapes | core/layout_generator_improved.py:310-318 | the aspect-ratio loop counts the long shapes |
| LayoutGeneratorImproved.GeneratePrunedRotationCombinations | core/layout_generator_improved.py:259-278 | the pruning loop computes the pruned rotation list |
| LayoutGeneratorImproved.PrunedRotationsSpec | core/layout_generator_improved.py:259-278 | never empty and only full-length rotation vectors; exactly the viable vectors when one exists, otherwise every vector |
| LayoutGeneratorImproved.CountOf | core/layout_generator_improved.py:350-352 | a side occurs at most n times among n links |
| LayoutGeneratorImproved.Changes | core/layout_generator_improved.py:360-363 | among n links there are fewer than n side changes |
| LayoutGeneratorImproved.AxesCoverLinks | core/layout_generator_improved.py:370-371 | the four side counts add up to the number of links |
| LayoutGeneratorImproved.StraightNotViable | core/layout_generator_improved.py:354-356 | a chain that goes the same way at every link is never viable |
| LayoutGeneratorImproved.IsViableDirectionCombination | core/layout_generator_improved.py:345-378 | the counting loop, the change-counting loop and the balance test decide viability |
| LayoutGeneratorImproved.GeneratePrunedDirectionCombinations | core/layout_generator_improved.py:324-343 | the pruning loop computes the pruned direction list |
| LayoutGeneratorImproved.PrunedDirectionsSpec | core/layout_generator_improved.py:324-343 | never empty and only k-link direction vectors; exactly the viable vectors when one exists, otherwise every vector; for k = 0 only the empty vector |
| LayoutGeneratorImproved.LineSpec | core/layout_generator_improved.py:388-390 | the innermost comprehension loop lists each direction index once |
| LayoutGeneratorImproved.PlaneSpec | core/layout_generator_improved.py:388-390 | the middle loop lists each rotation and direction index pair once |
| LayoutGeneratorImproved.TriplesSpec | core/layout_generator_improved.py:388-390 | the nested loops list each in-range triple once |
| LayoutGeneratorImproved.AllIndicesSpec | core/layout_generator_improved.py:387-391 | the full index list holds every in-range triple exactly once |
| LayoutGeneratorImproved.AddPatternsSpec | core/layout_generator_improved.py:430-439 | adding the representative patterns keeps the list distinct and in range and keeps every earlier entry |
| LayoutGeneratorImproved.StrategicSamplesSpec | core/layout_generator_improved.py:417-441 | with at least one seed, the strategic samples are distinct in-range triples, at most count of them |
| LayoutGeneratorImproved.NoSeedPattern | core/layout_generator_improved.py:433-439 | with no seeds, the second-seed pattern has seed index -1 |
| LayoutGeneratorImproved.GenerateStrategicSamples | core/layout_generator_improved.py:417-441 | the sampling loops compute the strategic samples |
| LayoutGeneratorImproved.AppendPlane | core/layout_generator_improved.py:425-427 | the middle loop appends one seed's plane of index pairs |
| LayoutGeneratorImproved.Below | core/layout_generator_improved.py:457-459 | a raw draw maps to an index below n |
| LayoutGeneratorImproved.Candidate | core/layout_generator_improved.py:456-460 | a drawn candidate is an in-range triple |
| LayoutGeneratorImproved.GenerateRandomSamples | core/layout_generator_improved.py:443-468 | at most count distinct in-range triples, none of them excluded, each drawn within the first 10·count attempts |
| LayoutGeneratorImproved.Swapped | core/layout_generator_improved.py:413 | a swap exchanges entries i and j and leaves the rest |
| LayoutGeneratorImproved.ShuffledDown | core/layout_generator_improved.py:413 | the shuffle steps keep the length |
| LayoutGeneratorImproved.ShuffledDownPermutes | core/layout_generator_improved.py:413 | the shuffle steps preserve the multiset |
| LayoutGeneratorImproved.ShuffledPermutes | core/layout_generator_improved.py:413 | shuffling keeps the same elements with the same multiplicities and adds no repetition |
| LayoutGeneratorImproved.Shuffle | core/layout_generator_improved.py:413 | the shuffle loop computes the Fisher-Yates shuffle for the given draws |
| LayoutGeneratorImproved.NonZeroFactors | core/layout_generator_improved.py:384 | a positive combination count has three positive factors |
| LayoutGeneratorImproved.AdaptiveSampling | core/layout_generator_improved.py:380-415 | up to 2000 combinations, every triple; above that, at most 500 distinct in-range triples including every strategic sample |
| LayoutGeneratorImproved.PlaceMainProcessesWithSeed | core/layout_generator_improved.py:470-511 | the placement loop computes the seeded layout: the first process at its seed, each later one beside its predecessor, None on any overlap, then the centred layout |
| LayoutGeneratorImproved.RotationsForShape | core/layout_generator_improved.py:76-78 | the rotation list for n mains is never empty and holds vectors of n - 1 entries |
| LayoutGeneratorImproved.DirectionsForShape | core/layout_generator_improved.py:79-81 | the direction list for n mains is never empty and holds vectors of n - 1 entries |
| LayoutGeneratorImproved.PlacedAtShape | core/layout_generator_improved.py:96-106 | every layout an index triple contributes has the main-layout shape |
| LayoutGeneratorImproved.TrySeeded | core/layout_generator_improved.py:96-106 | one loop iteration yields the seeded placement of its triple, which has the main-layout shape |
| LayoutGeneratorImproved.GenerateMainLayoutCombinations | core/layout_generator_improved.py:56-113 | every returned layout has the main-layout shape; with no mains the result is empty |
| LayoutGeneratorImproved.PlaceSampled | core/layout_generator_improved.py:87-106 | every layout has the main-layout shape; up to 2000 combinations every triple is tried in loop order |
| LayoutGeneratorImproved.PlaceIndices | core/layout_generator_improved.py:96-106 | the loop over the sampled triples collects each triple's placement, in order |
| LayoutGeneratorImproved.PlaceSubProcessesOptimally | core/layout_generator_improved.py:652-676 | computes the baseline's greedy sub-process placement on the coarse grid |
| LayoutGeneratorImproved.ImprovedGridSpacing | core/layout_generator_improved.py:741-761 | every coarse grid candidate sits at a non-negative multiple of 50 m on both axes |
| BaseEngine.EvaluationSign | optimization/base_engine.py:57-72 | for positive-sized layouts and zones, the evaluation is absent exactly when the handler rejects the layout, and otherwise it is never negative |
| BaseEngine.KeptSize | optimization/base_engine.py:86-93 | the kept pool holds max_keep solutions when the old pool plus the new one do not all fit, and holds all of them when they do |
| BaseEngine.KeptSpec | optimization/base_engine.py:86-93 | the kept pool is a sub-multiset of the old pool plus the new solution; it is sorted by non-increasing fitness, and no dropped solution outscores a kept one |
| BaseEngine.KeptRanking | optimization/base_engine.py:86-93 | for a sorted old pool, the new solution goes behind every solution of at least its fitness (ties included) and ahead of every lower one; the old order is kept, then the result is cut to max_keep |
| BaseEngine.PoolAfterSpec | optimization/base_engine.py:74-96 | repeated updates keep the pool sorted and within max_keep, and every pooled solution came from the old pool or the new ones |
| BaseEngine.Codes | optimization/base_engine.py:109-112 | the pool's layout codes, one per solution, in pool order |
| BaseEngine.CodeSetSize | optimization/base_engine.py:109-112 | the set of codes holds exactly the pool's codes: at least one for a non-empty pool, at most one per solution, and one per solution exactly when no code repeats |
| BaseEngine.Diversity | optimization/base_engine.py:102-115 | 0 for fewer than two solutions; otherwise it lies in (0, 1] |
| BaseEngine.DiversityDistinct | optimization/base_engine.py:109-115 | from two solutions on, the diversity is 1 exactly when no layout code repeats |
| BaseEngine.Share | optimization/base_engine.py:115 | the share of unique codes, m / n for 1 <= m <= n, lies in (0, 1] and is 1 only when m = n |
| BaseEngine.Engine.constructor | optimization/base_engine.py:14-38 | a new engine keeps its calculator and handler; its pool and histories are empty and it has not started |
| BaseEngine.Engine.EvaluateSolution | optimization/base_engine.py:57-72 | returns the handler's verdict first and then the calculator's fitness: no score for a rejected layout |
| BaseEngine.Engine.UpdateBestSolutions | optimization/base_engine.py:74-96 | the pool becomes the kept pool of the old pool plus the solution, and the fitness history grows by exactly that solution's fitness; nothing else changes and the invariant holds |
| BaseEngine.Engine.GetBestSolution | optimization/base_engine.py:98-100 | None exactly for an empty pool; otherwise the first entry, whose fitness is the highest in the pool |
| BaseEngine.Engine.StartOptimization | optimization/base_engine.py:147-152 | records the start time and empties the pool and both histories |
| BaseEngine.RecordSolution | optimization/exhaustive_search.py:130-131 | updating the pool and then appending to the history makes the fitness history grow by the fitness twice; the pool is the kept pool |
| BaseEngine.DominanceOrder | optimization/base_engine.py:303-315 | dominance is irreflexive, asymmetric and transitive |
| BaseEngine.NoObjectives | optimization/base_engine.py:303-315 | with no objectives nothing dominates anything |
| BaseEngine.IsParetoDominant | optimization/base_engine.py:303-315 | the flag loop returns true exactly when the first scores are at least as good on every objective and better on one |
| BaseEngine.ParetoUpdateSpec | optimization/base_engine.py:317-341 | the update keeps exactly the old members the new solution does not dominate; it adds the solution exactly when none of them dominates it, so never when an old member does |
| BaseEngine.ParetoUpdateAntichain | optimization/base_engine.py:317-341 | a front where no member dominates another stays so after an update |
| BaseEngine.Survivors | optimization/base_engine.py:324-328 | the comprehension keeps exactly the members the scores do not dominate, in order |
| BaseEngine.AnyDominates | optimization/base_engine.py:330-335 | true exactly when some member dominates the scores |
| BaseEngine.MultiObjectiveEngine.constructor | optimization/base_engine.py:263-275 | a new engine keeps its objectives and has an empty front |
| BaseEngine.MultiObjectiveEngine.UpdateParetoFront | optimization/base_engine.py:317-341 | the front becomes the Pareto update of the old front and the solution; a front without mutual dominance stays so |
| BaseEngine.ObjectiveScores | optimization/base_engine.py:277-301 | None exactly when the handler rejects the layout (every objective scores -inf); otherwise exactly the named objectives, each with its bonus from the fitness breakdown |
| ExhaustiveSearch.ClippedAreaSpec | optimization/exhaustive_search.py:256-262 | the clipped overlap area is non-negative, symmetric and 0 for rectangles apart or touching; for positive sizes it is positive exactly when they overlap and equals the geometry overlap area |
| ExhaustiveSearch.CalculateBoundaryPenalty | optimization/exhaustive_search.py:219-239 | the side-by-side loop computes the boundary penalty |
| ExhaustiveSearch.BoundaryPenaltyAgrees | optimization/exhaustive_search.py:219-239 | charging side by side gives the same total as the improved search's axis-by-axis charge |
| ExhaustiveSearch.BoundaryPenaltySpec | optimization/exhaustive_search.py:219-239 | the baseline boundary penalty equals the improved one; it is never negative and is 0 exactly when every rectangle lies inside the site |
| ExhaustiveSearch.CalculateOverlapPenalty | optimization/exhaustive_search.py:241-254 | the nested loops compute the overlap penalty |
| ExhaustiveSearch.OverlapRowPenalty | optimization/exhaustive_search.py:247-253 | the inner loop adds 100 times the clipped areas of rectangle i with every later one |
| ExhaustiveSearch.ClippedTermsAgree | optimization/exhaustive_search.py:256-262 | for positive-sized rectangles a pair adds the same term to the baseline sum as to the calculator's overlap sum |
| ExhaustiveSearch.OverlapPenaltySpec | optimization/exhaustive_search.py:241-254 | the overlap penalty is never negative and is 0 for pairwise-disjoint layouts; for positive sizes it equals the improved search's overlap penalty |
| ExhaustiveSearch.CalculateFixedZonePenalty | optimization/exhaustive_search.py:264-274 | the nested loops compute the fixed-zone penalty |
| ExhaustiveSearch.ZoneRowPenalty | optimization/exhaustive_search.py:268-273 | the inner loop adds 50 times each zone's clipped overlap with one rectangle |
| ExhaustiveSearch.ZonePenaltySpec | optimization/exhaustive_search.py:264-274 | the zone penalty is never negative and is 0 for a layout clear of the zones; for positive sizes it equals the improved search's zone penalty |
| ExhaustiveSearch.PenaltySpec | optimization/exhaustive_search.py:177-208 | the summed penalty is never negative and is 0 for a feasible layout; for positive sizes it is the improved total penalty, 0 exactly when the layout is feasible |
| ExhaustiveSearch.EvaluateSolutionWithPenalties | optimization/exhaustive_search.py:177-208 | computes the calculator's fitness less the three penalties |
| ExhaustiveSearch.SearchFitnessSpec | optimization/exhaustive_search.py:177-208 | the search never raises the calculator's fitness; for positive sizes it scores as the improved search; with a shared site a non-empty layout scores at least 0 exactly when it is feasible |
| ExhaustiveSearch.SolutionOf | optimization/exhaustive_search.py:100-127 | the recorded solution keeps the layout and number, never outscores the calculator, flags exactly the boundary crossings, and has penalty score minus the penalty when accepted and 0 otherwise |
| ExhaustiveSearch.CountsAddUp | optimization/exhaustive_search.py:106-111 | every solution is counted valid or violating, and the boundary crossings are among the violations |
| ExhaustiveSearch.CountedStep | optimization/exhaustive_search.py:85-111 | one more solution adds one to the evaluated count and one to each count whose test it passes |
| ExhaustiveSearch.ContinuedSpec | optimization/exhaustive_search.py:84-154 | the loop goes on after every proper prefix exactly when it does not stop after any of them |
| ExhaustiveSearch.StopsSpec | optimization/exhaustive_search.py:143-154 | a stop needs a checkpoint every max(1, total // 20) arrangements; below 20 arrangements every count is a checkpoint; with max_solutions at most 0 every checkpoint stops; a stopped run with max_solutions >= 0 returns exactly max_solutions solutions |
| ExhaustiveSearch.StatisticsSpec | optimization/exhaustive_search.py:276-295 | with counters that add up, the statistics are missing exactly before any evaluation, and both rates are shares, the boundary rate at most the rejected share |
| ExhaustiveSearch.ExhaustiveSearch.constructor | optimization/exhaustive_search.py:15-29 | a new search keeps its engine, site and number formatting, with all four counters at 0 |
| ExhaustiveSearch.ExhaustiveSearch.EvaluateCombination | optimization/exhaustive_search.py:93-127 | one loop body places the subs, scores, checks, codes and yields the solution for that arrangement |
| ExhaustiveSearch.ExhaustiveSearch.Count | optimization/exhaustive_search.py:85-111 | one more evaluated; one more valid, or one more violation and, when crossing the boundary, one more boundary violation |
| ExhaustiveSearch.ExhaustiveSearch.ShouldStop | optimization/exhaustive_search.py:143-154 | stops exactly at a checkpoint, with a pool of at least 3·max_solutions, at least max_solutions valid, and at least max_solutions valid pooled solutions |
| ExhaustiveSearch.ExhaustiveSearch.Advance | optimization/exhaustive_search.py:106-154 | counts the solution, records it in the pool and twice in the history, and tests the early stop, keeping the loop's tracking invariant |
| ExhaustiveSearch.ExhaustiveSearch.Step | optimization/exhaustive_search.py:84-154 | one pass over the next arrangement adds exactly one solution and keeps the loop's progress invariant |
| ExhaustiveSearch.ExhaustiveSearch.EvaluateCombinations | optimization/exhaustive_search.py:84-154 | the k-th solution is that of the k-th arrangement, numbered k + 1; the loop stops at the first point the early stop fires and otherwise runs to the end; the pool is the kept pool at 3·max_solutions and the history holds each fitness twice |
| ExhaustiveSearch.ExhaustiveSearch.Optimize | optimization/exhaustive_search.py:31-175 | resets the pool, history and counters; generates every rotation and direction arrangement (none without mains); truncates to max_combinations; searches until the early stop; returns the pool's best max_solutions, sorted by fitness and drawn from the evaluated solutions |
| ExhaustiveSearch.ExhaustiveSearch.GetOptimizationStatistics | optimization/exhaustive_search.py:276-295 | the constraint statistics are missing before any evaluation and otherwise carry the counters and rates |
| ExhaustiveSearch.FinalFacts | optimization/exhaustive_search.py:160 | the final list is the pool's head: sorted by fitness, drawn from the evaluated solutions, at most max_solutions long |
| ExhaustiveSearchImproved.SideExcessSpec | optimization/exhaustive_search_improved.py:292-299 | a rectangle's boundary excess is never negative and is 0 exactly when it lies inside the site |
| ExhaustiveSearchImproved.CalculateBoundaryPenalty | optimization/exhaustive_search_improved.py:288-300 | the loop computes the boundary penalty |
| ExhaustiveSearchImproved.BoundaryPenaltySpec | optimization/exhaustive_search_improved.py:288-300 | the boundary penalty is never negative and is 0 exactly when every rectangle lies inside |
| ExhaustiveSearchImproved.HasBoundaryViolations | optimization/exhaustive_search_improved.py:328-335 | true exactly when some rectangle crosses a side of the site |
| ExhaustiveSearchImproved.BoundaryPenaltyFlags | optimization/exhaustive_search_improved.py:288-300 | the boundary penalty is positive exactly when a boundary violation is reported |
| ExhaustiveSearchImproved.CalculateOverlapPenalty | optimization/exhaustive_search_improved.py:302-314 | the nested loops compute the overlap penalty |
| ExhaustiveSearchImproved.OverlapRowPenalty | optimization/exhaustive_search_improved.py:306-313 | the inner loop adds 100 times the overlap areas of rectangle i with every later one |
| ExhaustiveSearchImproved.CalculateFixedZonePenalty | optimization/exhaustive_search_improved.py:316-326 | 50 per unit of area inside a fixed zone |
| ExhaustiveSearchImproved.ZoneRowPenalty | optimization/exhaustive_search_improved.py:320-325 | the inner loop adds 50 times each zone's overlap with one rectangle |
| ExhaustiveSearchImproved.ZoneIntrusionSpec | optimization/exhaustive_search_improved.py:316-326 | the zone intrusion is never negative and is 0 for a layout clear of the zones; for positive sizes it is 0 exactly then |
| ExhaustiveSearchImproved.CalculateTotalPenalty | optimization/exhaustive_search_improved.py:272-286 | computes the boundary, overlap and fixed-zone penalties summed |
| ExhaustiveSearchImproved.TotalPenaltySpec | optimization/exhaustive_search_improved.py:272-286 | the total penalty is never negative and is 0 for a feasible layout; for positive sizes it is 0 exactly for a feasible layout |
| ExhaustiveSearchImproved.EvaluateSolutionWithPenalties | optimization/exhaustive_search_improved.py:258-270 | computes the calculator's fitness less the total penalty |
| ExhaustiveSearchImproved.SearchFitnessSpec | optimization/exhaustive_search_improved.py:258-270 | the search fitness never exceeds the calculator's and equals it exactly when the penalty is 0; with a shared site a non-empty positive-sized layout scores at least 0 exactly when it is feasible |
| ExhaustiveSearchImproved.MaxOfSpec | optimization/exhaustive_search_improved.py:247-250 | max of a non-empty list is an element no smaller than any other |
| ExhaustiveSearchImproved.EarlyTerminationSpec | optimization/exhaustive_search_improved.py:222-256 | never before 10% of the combinations; from then on twice the target stops, and from half way the target does; with a positive target never without a high-quality solution; short of the target only on a plateau after 30% and over 100 values; more high-quality solutions never undo a stop |
| ExhaustiveSearchImproved.FillSpec | optimization/exhaustive_search_improved.py:357-371 | filling takes the first max_solutions of the valid, boundary and other lists in turn; a negative max_solutions keeps a prefix of the valid list |
| ExhaustiveSearchImproved.FinalizeResults | optimization/exhaustive_search_improved.py:337-373 | computes the finalized list: sorted by fitness, split into tiers, filled tier by tier up to max_solutions |
| ExhaustiveSearchImproved.OthersAreTierTwo | optimization/exhaustive_search_improved.py:368-371 | the "not already listed" test on the sorted solutions keeps exactly those neither valid nor crossing the boundary |
| ExhaustiveSearchImproved.TieredSpec | optimization/exhaustive_search_improved.py:337-373 | the reference tier order is tier-ordered and holds every solution, no more and no fewer |
| ExhaustiveSearchImproved.FinalizedTiered | optimization/exhaustive_search_improved.py:337-373 | for max_solutions >= 0 the final list is the first max_solutions of the reference tier order; a negative one leaves a prefix of the valid solutions |
| ExhaustiveSearchImproved.TierOrderedPrefix | optimization/exhaustive_search_improved.py:357-371 | a prefix of a tier-ordered list is tier-ordered, and everything after it is behind everything in it |
| ExhaustiveSearchImproved.FinalizedSpec | optimization/exhaustive_search_improved.py:337-373 | returns given solutions, tier-ordered; for max_solutions >= 0, min(max_solutions, n) of them, and a solution is left out only when the list is full of solutions ahead of it |
| ExhaustiveSearchImproved.SolutionOf | optimization/exhaustive_search_improved.py:147-182 | the recorded solution has a non-negative penalty score, and its fitness is the calculator's less that penalty; it flags exactly the boundary crossings; an accepted solution on a shared site crosses no boundary and carries no penalty |
| ExhaustiveSearchImproved.DoubledFitnessSpec | optimization/exhaustive_search_improved.py:192-193 | the history the loop leaves holds each solution's fitness twice in a row, at 2k and 2k + 1 |
| ExhaustiveSearchImproved.SnocSteps | optimization/exhaustive_search_improved.py:185-193 | one more solution adds its fitness twice to the history, one pool update, and itself to the high-quality list when it is high quality |
| ExhaustiveSearchImproved.ContinuedSpec | optimization/exhaustive_search_improved.py:143-218 | the loop goes on after every proper prefix exactly when it does not stop after any of them |
| ExhaustiveSearchImproved.Truncated | optimization/exhaustive_search_improved.py:96-98 | a prefix of the arrangements; all of them when the limit is unset or 0; min(limit, n) for a positive limit; n + limit, at least 0, for a negative one (Python slicing) |
| ExhaustiveSearchImproved.ImprovedExhaustiveSearch.constructor | optimization/exhaustive_search_improved.py:14-42 | a new search keeps its engine, site and number formatting |
| ExhaustiveSearchImproved.ImprovedExhaustiveSearch.EvaluateCombination | optimization/exhaustive_search_improved.py:147-182 | one loop body places the subs, scores, checks, codes and yields the solution for that arrangement |
| ExhaustiveSearchImproved.ImprovedExhaustiveSearch.Step | optimization/exhaustive_search_improved.py:143-218 | one pass adds exactly one solution, tracks high quality, updates pool and history, and keeps the loop's progress invariant |
| ExhaustiveSearchImproved.ImprovedExhaustiveSearch.EvaluateCombinations | optimization/exhaustive_search_improved.py:129-220 | the k-th solution is that of the k-th arrangement, numbered k + 1; the loop stops at the first point the early-termination rule fires and otherwise runs to the end; the pool takes each solution at 3·max_solutions and the history gains each fitness twice |
| ExhaustiveSearchImproved.ImprovedExhaustiveSearch.Optimize | optimization/exhaustive_search_improved.py:44-127 | generates the improved arrangements (none without mains), each of main-layout shape; truncates them; evaluates them in order; returns the finalized list: tier-ordered, from the evaluated solutions, at most max_solutions |

## Left out

- Geometry.Hypot: Dafny has no square root. The root is the uninterpreted constant `Geometry.Root`. `Hypot` is exact when one gap is 0. Otherwise it is only bounded: at least the larger gap and at most the sum of the gaps.
- Geometry.CenterDistance: built on `Hypot`, so it is only bounded: non-negative, 0 for equal centres, at least each axis gap.
- Geometry.EdgeDistance: built on `Hypot`, so it is only bounded in the same way.
- LayoutGeneratorImproved.CentreScore: its ratio uses the centre distance, so the contract gives only the four possible values and the value at the exact centre.
- Python floats are modelled as `real`, so rounding is ignored. Python `//` on sizes is `Floor` of the quotient.
- `random.randint` and `random.shuffle` are parameters. `draw(k)` is the raw draw of attempt k, reduced into range; `swap(i)` is the partner of step i of the Fisher-Yates shuffle. Which values the random module gives is not modelled.
- `time.time()`, `print`, the `stats` and `performance_stats` counters, `evaluation_time`, the optimisation phases and the visualiser callbacks are not modelled.
- ConfigLoader.Loader.LoadConfig: the file read and the JSON parse are not modelled; the loader receives the parsed document.
- ConfigLoader.ValidateSpaceSpec: the document is already typed. A missing or non-dict `spaces` entry cannot occur, and neither can a non-integer `main_process_sequence` (the `isinstance(sequence, int)` test).
- Geometry.NonOverlappingPositions requires `grid > 0`. For grid 0, Python's `range` raises `ValueError`; a negative grid gives an empty range. Neither case is modelled.
- Geometry.NonOverlappingPositionsExact requires `grid > 0`, for the same reason.
- LayoutGeneratorImproved.HasExtent is required where the seed score divides by the half diagonal. It stands for the `ZeroDivisionError` Python raises on a site of size 0 × 0.
- LayoutGeneratorImproved.LongShape treats a shape with a zero side as not long. Python raises `ZeroDivisionError` there.
- Text.Lower lowers ASCII letters only; Python's `str.lower` also lowers other scripts.
- LayoutGeneratorImproved.GenerateMainLayoutCombinations states that every layout has the main-layout shape and that no mains give no layouts. Which layouts are tried is stated one level down: `PlaceSampled` tries every index triple up to 2000 combinations, and `AdaptiveSampling` gives the sample above that.
- The improved generator's switches `enable_early_pruning`, `enable_adaptive_sampling` and `enable_multi_seed` are always true, as its constructor sets them (core/layout_generator_improved.py:30-32). The switched-off paths are not modelled.
- Most of the improved generator's helpers are copies of the baseline's. The model reuses the `LayoutGenerator` members for them:
  - combination enumeration (core/layout_generator_improved.py:514-540);
  - rectangle creation and adjacent placement (542-580);
  - placement and layout validity (597-622);
  - centring (624-650);
  - sub-process ordering and choice (678-739);
  - the layout code, direction and contact length (792-861).
- LayoutGenerator.LayoutCode orders main processes by sequence, with 999 for a rectangle that has none. In Python, a mix of `None` and numbers makes `sorted` raise `TypeError`. Number formatting is the parameter `show`.
- ConstraintHandler.ZoneName: Python falls back to the id `'unknown'` for a zone with no id; every modelled rectangle has an id.
- ProcessClassifier.Classifier.CalculateTotalArea gives no utilisation ratio (`None`) for a site of area 0, where Python raises `ZeroDivisionError`.
- FitnessCalculator.CompareLayouts gives `None` when either layout is empty, where Python raises `KeyError` on the empty breakdown's bonuses.
- These reporting and statistics operations are not part of this model:
  - `get_process_statistics` and `print_classification_summary` (core/process_classifier.py:209-293);
  - `get_layout_statistics` and `_calculate_compactness` of both generators (core/layout_generator.py:560-683, core/layout_generator_improved.py:871-929);
  - `get_constraint_summary`, `_generate_constraint_suggestions`, `suggest_constraint_fixes` and `print_constraint_report` (core/constraint_handler.py:323-387, 465-633);
  - `print_fitness_report`;
  - `get_convergence_info`, `record_optimization_step`, `end_optimization`, `get_optimization_time`, `get_performance_metrics`, `compare_with_baseline`, `export_results` and `print_summary` of the base engine;
  - the improved search's performance report, baseline comparison and log export;
  - `print_config_summary` and `create_sample_config`.
- `check_accessibility` (core/constraint_handler.py:389-433) is not part of this model. `validate_layout` does not call it.
- These geometry helpers are not part of this model; the layout core does not call them:
  - `point_in_rectangle`, `rectangle_in_bounds`, `calculate_contact_length`, `calculate_aspect_ratio`;
  - `find_free_space`, `find_closest_rectangles`, `calculate_layout_center`;
  - `LayoutGeometry.optimize_spacing`.
- The abstract `optimize` of the base engine has no body to model; both exhaustive searches model their own.

## Source behaviour the model records

The model follows the code. Where the code does something its authors may not have meant, a
lemma states the behaviour:

- ConfigLoader.LegacyMainRejected: a legacy space typed `production` or `main_building` becomes a main process without a sequence number. The sequence check then fails with `KeyError`, so such a configuration is always rejected, even when every space passes its own checks (core/config_loader.py:155-159, 185-189).
- ProcessClassifier.NoDuplicateIds: the classifier's repeated-id check can never fire. Each main process takes its space's key as its id, and keys are distinct, so no id can occur twice (core/process_classifier.py:40-51, 109-113).
- ExhaustiveSearchImproved.DoubledFitnessSpec: both searches record each fitness twice in `fitness_history`. `update_best_solutions` appends it, then the loop appends it again (optimization/exhaustive_search.py:130-131, optimization/exhaustive_search_improved.py:192-193). `BaseEngine.RecordSolution` states the same for one step.
- Rotation combinations in the baseline search:
  - the baseline enumerates rotations over all n main processes, so it tries 2^n · 4^(n-1) combinations (`LayoutGenerator.AttemptCount`);
  - the first process is placed at the site centre in every combination;
  - the improved generator enumerates rotations of the n - 1 later processes only.
- ExhaustiveSearch.SolutionOf: the baseline's `penalty_score` is the penalised fitness less the unpenalised one for an accepted layout, that is, minus the penalty. It is 0 for a rejected layout (optimization/exhaustive_search.py:126). The improved search records the non-negative total penalty instead.
- FitnessCalculator's breakdown counts a hazard-distance penalty as a violation, so a layout whose only fault is hazard distance gets a breakdown total of 0. `calculate_fitness` does not gate on hazard distance (core/fitness_calculator.py:51-98, 361-388).
- The fitness calculator's hazard distance table has 6 entries; the constraint handler's has 11. The two can disagree on the distance a pair of hazard levels needs.
