# AirSense core in Dafny

AirSense is the web front end and API of an odour-monitoring service for the livestock farms of Asan. It draws a downwind odour fan around each farm on a map and shows residents' odour complaints as clustered markers with statistics. This project models the deterministic computations inside it and proves properties about them.

**Farm map**
- **Odour fan.** The web worker and the two farm API routes compute each farm's fan radius and its 60-degree downwind sector. The inputs are the farm's species and head count and the current weather (`OdorWorker`, `FarmRouteCommon`, `AsanFarmTestRoute`, `AsanFarmRoute`).
- **Recompute gating.** Before work is sent to the worker the page checks the bearing difference, the farm-list hash, a fan-list comparison and a trailing-edge throttle (`RecomputeUtil`). It also derives its filters, toggles, weather polling and dispatch effect (`FarmMapPage`). The species-to-group and odour-colour tables are transcribed as constants (`Constants`).
- **Map panels.** The livestock scale filter panel (`ScaleFilterPanel`), the weather panel (`WeatherPanel`) and the pie chart's grouping (`PieChartPanel`). Also the overlay's colour parser, prop defaults and memo comparator (`OdorOverlay`).

**Complaint map**
- **Clustering and statistics.** The data hook's grid clustering of complaint markers (`ComplaintClustering`). The complaint page's own all-pairs clustering and its marker click, which sorts a cluster in place (`ComplaintsPage`). The per-region, per-month and per-period statistics and the marker scale (`ComplaintStats`). The client-side filter of the complaint page and of its data hook, which share the same code (`ComplaintData`).
- **Complaint APIs.** The three complaint API routes share a bounded time-to-live response cache (`TtlCache`) and slice pagination (`ComplaintApi`). The list route builds a canonical query-string key (`ComplaintListRoute`). The two content routes validate ids and key the cache on the sorted ids (`ComplaintContent`). One content route serves the bundled dataset (`ComplaintContentListRoute`), the other the database (`ComplaintContentDbRoute`).
- **Complaint list modal.** Its pager and sort orders (`ComplaintList`).

**Elsewhere**
- **Small parsers and validators.** The export scripts' command-line parser and default file name (`ExportArguments`), the feedback POST validation (`FeedbackRoute`) and the header's navigation items (`HeaderNav`).

**JavaScript semantics.** `JsText`, `JsNumber`, `Sorting` and `Tally` model the parts of JavaScript semantics the code relies on:
- `parseInt` with its numeric-prefix reading, and `split`, `join`, `toLowerCase` and `slice` with relative indices;
- the truncating `%`, `Math.round`, and ToInt32 for the shift operators;
- the stable `Array.prototype.sort`;
- a counting dictionary read back in insertion order.

**Form of the model.** Pure code is modelled as functions with lemmas. State that the source mutates is modelled as classes with `modifies` clauses:
- a route's module-level cache `Map` (`TtlCache.Cache`);
- the throttle (`RecomputeUtil.Throttle`);
- the page's weather poller and dispatch refs (`FarmMapPage.WeatherPoller`, `FarmMapPage.OdorDispatcher`);
- the scale panel's state and effect (`ScaleFilterPanel.Panel`).

Loops that the source runs step by step are methods with loop invariants, each proved equal to a specification function. Examples are the export scripts' argument loop, the pie chart's counting loop, the grid clustering and the scale panel's notification effect.

The clock, dates, the haversine distance, the database and the scale table are parameters of the model.

Both export scripts have the same `parseArguments` (scripts/export-complaints.ts:110-199 and scripts/export-livestock-farms.ts:106-195) and the same default-path rule. They differ only in the base name, which is a parameter. One model covers both, and the table cites whichever file a row is checked against.

## Model

| member | source | states |
|---|---|---|
| OdorWorker.TypeMultiplier | src/app/workers/odorWorker.ts:11-17 | the species table keyed by the raw type string: 3.0 for 돼지, 1.4 for 육계 and 종계/산란계, 2.0 for 소, 1.0 for 사슴, and 1 for every other string that is not the name of an `Object.prototype` member (the `|| 1` default) |
| OdorWorker.WindMul | src/app/workers/odorWorker.ts:28 | 1.5 at speed ≤ 0.5, 0.7 at speed ≥ 1.5, 1.0 strictly between |
| OdorWorker.StabilityMul | src/app/workers/odorWorker.ts:29 | 1.4 for 'stable', 0.8 for 'unstable', 1.0 for any other value |
| OdorWorker.HumidityMul | src/app/workers/odorWorker.ts:30 | 1 + humidity/100·0.3 lies in [1.0, 1.3] for humidity in [0, 100] and is ≥ 1 for any non-negative humidity |
| OdorWorker.MultiplierPositive | src/app/workers/odorWorker.ts:34 | the product of the four multipliers is positive for a non-negative humidity |
| OdorWorker.SafeMax | src/app/workers/odorWorker.ts:26 | the denominator `max(maxCount, 1)` is at least 1 and at least maxCount |
| OdorWorker.Radius | src/app/workers/odorWorker.ts:35-36 | the rounded, clamped radius is never negative |
| OdorWorker.JsRem360NonNeg | src/app/workers/odorWorker.ts:38-40 | JavaScript `% 360` on a non-negative dividend equals the mathematical remainder in [0, 360) |
| OdorWorker.ComputeFans | src/app/workers/odorWorker.ts:32-43 | one fan per input farm, in input order, copying farmId, type and center, with a non-negative radius and the batch's start and end angles |
| OdorWorker.BaseExtentBounds | src/app/workers/odorWorker.ts:26-35 | for 0 ≤ count ≤ maxCount the pre-multiplier radius 500 + count/safeMax·4500 lies in [500, 5000], and equals 5000 for the farm at the maximum |
| OdorWorker.RadiusMonotone | src/app/workers/odorWorker.ts:34-36 | with the normaliser and multiplier fixed, a larger head count never gives a smaller radius |
| OdorWorker.RadiusUnfold | src/app/workers/odorWorker.ts:36 | the radius is round-to-0.1 of max(0, base·mult) |
| OdorWorker.ScaleMonotone | src/app/workers/odorWorker.ts:36 | scaling by a non-negative multiplier keeps the order of two extents |
| OdorWorker.ClampRoundMonotone | src/app/workers/odorWorker.ts:36 | clamping at 0 and rounding to one decimal keep the order of two values |
| OdorWorker.BaseExtentMonotone | src/app/workers/odorWorker.ts:35 | the pre-multiplier radius grows with the head count |
| OdorWorker.SectorShape | src/app/workers/odorWorker.ts:38-40 | startA and endA lie in [0, 360), sit 30 degrees either side of the wind direction normalised into [0, 360), and (endA − startA) mod 360 is 60 |
| OdorWorker.SectorSharedByBatch | src/app/workers/odorWorker.ts:38-40 | every fan of one batch has the same start and end angle |
| OdorWorker.CattleBreedsUseDefault | src/app/workers/odorWorker.ts:11-34 | 한우, 육우, 젖소 and 오리 are not keys of the table and get the default 1, like 사슴 |
| OdorWorker.PigFarmExample | src/app/workers/odorWorker.ts:28-40 | a pig farm at the maximum count under speed 0.3, humidity 80, 'stable', direction 90 gets radius 39060.0, startA 60, endA 120 |
| FarmRouteCommon.QueryEnv | src/app/api/asan-farm-test/route.ts:69-72 | the query defaults: windDir 0, windSpeed 1, humidity 50, stability 'neutral' when a parameter is absent or empty; any other stability string is kept |
| FarmRouteCommon.KeepNonBlank | src/app/api/asan-farm-test/route.ts:74 | keeps exactly the entries that are not blank after trimming, without trimming them |
| FarmRouteCommon.ParseTypes | src/app/api/asan-farm-test/route.ts:73-74 | an absent or empty `types` gives []; every kept entry is non-blank and free of commas |
| FarmRouteCommon.ParseTypesJoin | src/app/api/asan-farm-test/route.ts:74 | a comma-joined list of non-blank, comma-free names parses back to the same list |
| FarmRouteCommon.ParseTypesKeepsSpaces | src/app/api/asan-farm-test/route.ts:74 | " a,, ,b" yields [" a", "b"]: blank entries are dropped and kept entries keep their spaces |
| FarmRouteCommon.LocatedOnly | src/app/api/asan-farm-test/route.ts:43 | keeps exactly the farms with both coordinates non-null |
| FarmRouteCommon.LocatedOnlyAppend | src/app/api/asan-farm-test/route.ts:43 | the location filter keeps input order (it distributes over concatenation) |
| FarmRouteCommon.LocatedOnlyAll | src/app/api/asan-farm-test/route.ts:43 | a list of located farms passes the filter unchanged |
| FarmRouteCommon.LocatedFans | src/app/api/asan-farm-test/route.ts:42-61 | one fan per located farm, in order, computed by the worker's rules (multiplier, rounding, sector) |
| FarmRouteCommon.MaxWithOne | src/app/api/asan-farm-test/route.ts:89 | `Math.max(...xs, 1)` is at least 1, at least every element, and is one of them unless it is 1 |
| FarmRouteCommon.FindFan | src/app/api/asan-farm-test/route.ts:107 | `find` returns none exactly when no fan has the id, and otherwise the first fan carrying it |
| FarmRouteCommon.FindFanUnique | src/app/api/asan-farm-test/route.ts:107 | when every fan with the id is the same fan, `find` returns that fan |
| FarmRouteCommon.Merge | src/app/api/asan-farm-test/route.ts:106-123 | one record per farm copying id, type, count and coordinates; wind data is null exactly when no fan carries the farm's id |
| FarmRouteCommon.MergeOwnFan | src/app/api/asan-farm-test/route.ts:103-122 | when ids identify farms, a located farm's record carries its own fan's radius and angles and an unlocated farm's record has null wind data |
| FarmRouteCommon.SameIdSameFarm | src/app/api/asan-farm-test/route.ts:77-78 | two farms of a list whose ids identify farms and that share an id are the same farm |
| AsanFarmTestRoute.AllFarms | src/app/api/asan-farm-test/route.ts:77-83 | the bundled data set mapped to rows with id index + 1 and the fields copied |
| AsanFarmTestRoute.AllFarmsIdsIdentify | src/app/api/asan-farm-test/route.ts:78 | ids index + 1 are unique |
| AsanFarmTestRoute.ForMax | src/app/api/asan-farm-test/route.ts:86-88 | the counts of exactly the located farms with a positive count |
| AsanFarmTestRoute.GlobalMaxCount | src/app/api/asan-farm-test/route.ts:86-89 | the global maximum is at least 1, bounds every located positive count and is one of them unless it is 1 |
| AsanFarmTestRoute.FilterSelected | src/app/api/asan-farm-test/route.ts:92-99 | keeps exactly the located farms with a positive count whose type is listed (any type when none is listed) |
| AsanFarmTestRoute.CountDescPreorder | src/app/api/asan-farm-test/route.ts:100 | the count-descending comparator is a total preorder |
| AsanFarmTestRoute.SelectFarmsSpec | src/app/api/asan-farm-test/route.ts:92-100 | the returned farms are exactly the selected ones, a permutation of the filter's output, sorted by count non-increasing |
| AsanFarmTestRoute.GetRecord | src/app/api/asan-farm-test/route.ts:103-122 | record i describes the i-th selected farm and carries non-null wind data equal to that farm's fan against the global maximum |
| AsanFarmTestRoute.TypesDoNotChangeWindData | src/app/api/asan-farm-test/route.ts:85-103 | two queries differing only in `types` give a farm the same wind data |
| AsanFarmTestRoute.NoTypesKeepsAllValid | src/app/api/asan-farm-test/route.ts:69-99 | with no parameters the defaults apply and every located farm with a positive count is returned |
| AsanFarmRoute.BatchMaxCount | src/app/api/asan-farm/route.ts:34-35 | the normaliser is at least 1, bounds every count of the batch and is one of them unless it is 1 |
| AsanFarmRoute.EmptyBatch | src/app/api/asan-farm/route.ts:34-44 | an empty batch gives normaliser 1 and no fans |
| AsanFarmRoute.LargestFarmFullExtent | src/app/api/asan-farm/route.ts:34-47 | the largest farm of the batch gets 5000 m before multipliers |
| AsanFarmRoute.RadiusDependsOnBatch | src/app/api/asan-farm/route.ts:34-47 | the same pig farm gets a different radius once a farm twice its size joins the batch |
| AsanFarmRoute.FirstFanRadius | src/app/api/asan-farm/route.ts:42-47 | for an all-located batch there is one fan per farm and the first fan's radius is the first farm's radius against the batch maximum |
| AsanFarmRoute.BatchMaxExamples | src/app/api/asan-farm/route.ts:34 | counts [100] give 100 and [100, 200] give 200 |
| AsanFarmRoute.RadiusDiffers | src/app/api/asan-farm/route.ts:46-47 | for a multiplier ≥ 1.68, 100 head get different radii against maxima 100 and 200 |
| AsanFarmRoute.PigMultiplierAtLeast | src/app/api/asan-farm/route.ts:38-45 | the pig multiplier is at least 3.0·0.7·0.8·1.0 = 1.68 for non-negative humidity |
| AsanFarmRoute.GetRecord | src/app/api/asan-farm/route.ts:94-114 | with unique database ids, a located row's record carries its own fan against the batch maximum and an unlocated row's gets null |
| RecomputeUtil.ShortArc | src/app/utils/index.ts:5 | the shorter arc between two bearings lies in [0, 180] |
| RecomputeUtil.AngleDiffIsShortArc | src/app/utils/index.ts:5 | `angleDiffDeg(a, b)` equals the shorter arc whenever a − b ≥ −540, so that the truncated `%` sees a non-negative dividend |
| RecomputeUtil.AngleDiffOnBearings | src/app/utils/index.ts:5 | for bearings in [0, 360] the difference lies in [0, 180], is symmetric, and is 0 when a = b |
| RecomputeUtil.ShortArcSymmetric | src/app/utils/index.ts:5 | the shorter arc does not depend on the order of the two bearings |
| RecomputeUtil.AngleDiffLargeNegative | src/app/utils/index.ts:5 | angleDiffDeg(0, 720) is 360, although the two bearings coincide: JavaScript's `%` keeps the dividend's sign |
| RecomputeUtil.HashEmpty | src/app/utils/index.ts:7-9 | the empty list hashes to '' |
| RecomputeUtil.NoSeparatorInNumber | src/app/utils/index.ts:8 | a decimal integer contains neither ':' nor '\|' |
| RecomputeUtil.EntrySplit | src/app/utils/index.ts:8 | an entry splits on ':' back into id, type and count when the type has no ':' |
| RecomputeUtil.IntToStringInjective | src/app/utils/index.ts:8 | different integers are written differently |
| RecomputeUtil.EntryInjective | src/app/utils/index.ts:8 | equal entries mean equal id, type and count when types have no ':' |
| RecomputeUtil.HashDeterminesKeys | src/app/utils/index.ts:7-9 | when type names avoid ':' and '\|', equal hashes mean equal lengths and the same id, type and count at every index |
| RecomputeUtil.NonEmptyHash | src/app/utils/index.ts:7-9 | the hash is '' exactly for the empty list |
| RecomputeUtil.HashCollision | src/app/utils/index.ts:7-9 | with separators inside a type name, a one-farm list and a two-farm list hash alike |
| RecomputeUtil.SameFansIffKeys | src/app/utils/index.ts:46-57 | `sameFans` holds exactly when the lengths agree and every index agrees on farmId, type, radius, startA and endA |
| RecomputeUtil.SameFansEquivalence | src/app/utils/index.ts:46-57 | `sameFans` is reflexive, symmetric and transitive |
| RecomputeUtil.SameFansIgnoresCenter | src/app/utils/index.ts:53-55 | replacing every fan's center does not make the lists differ |
| RecomputeUtil.Throttle.constructor | src/app/utils/index.ts:11-14 | a fresh throttle has the given function and wait, lastTs 0, no armed timer and no deliveries |
| RecomputeUtil.Throttle.SetFn | src/app/utils/index.ts:16-18 | only the current function changes |
| RecomputeUtil.Throttle.Call | src/app/utils/index.ts:20-43 | a call at least `wait` after the last run cancels any timer and delivers its arguments at once; an earlier call replaces any armed timer with one firing at lastTs + wait with these arguments; the invariant that runs are at least `wait` apart is kept |
| RecomputeUtil.Throttle.Fire | src/app/utils/index.ts:24-40 | the armed timer fires no earlier than its deadline, clears itself, records the run time and delivers its arguments through the latest function |
| Constants.TypeToGroup | src/app/constants/index.ts:5-13 | defined exactly for the seven listed types; the three cattle breeds map to 소 and the two poultry types to 닭 |
| Constants.OdorColor | src/app/constants/index.ts:28-34 | a stroke colour exists exactly for the five categories 닭, 소, 돼지, 사슴 and 기타 |
| FarmMapPage.MaxCount | src/app/asan/page.tsx:66 | the maximum of a non-empty list bounds every count and is one of them |
| FarmMapPage.GlobalMaxCount | src/app/asan/page.tsx:66 | the largest count over all loaded farms whatever the filters, and 1 when no farm is loaded |
| FarmMapPage.AllTypes | src/app/asan/page.tsx:72 | the distinct types of the loaded farms: no repeats, and a type is listed exactly when some farm has it |
| FarmMapPage.VisibleFarms | src/app/asan/page.tsx:96-104 | a farm is kept exactly when its type is selected and min ≤ count < max for its group's range (a missing range is [0, ∞) and a null max is unbounded) |
| FarmMapPage.VisibleFarmsAppend | src/app/asan/page.tsx:96-104 | the filter keeps the input order (it distributes over concatenation) |
| FarmMapPage.MissingRangeIsOpen | src/app/asan/page.tsx:101 | a selected farm whose group has no range is visible exactly when its count is not negative |
| FarmMapPage.ScaleChange | src/app/asan/page.tsx:141-143 | the named group gets the new range and every other group keeps its own |
| FarmMapPage.ScaleChangeVisibility | src/app/asan/page.tsx:96-143 | after a scale change the changed group's farms follow the new range and other groups' visibility is unchanged |
| FarmMapPage.EnvApplied | src/app/asan/page.tsx:106-114 | 'worst' and 'best' override with their fixed values; otherwise the forecast values when selFcIndex > 0, else the live values, with stability 'neutral' |
| FarmMapPage.Without | src/app/asan/page.tsx:134 | removes every copy of the type and keeps the rest |
| FarmMapPage.ToggleType | src/app/asan/page.tsx:133-135 | the toggled type is selected afterwards exactly when it was not before; every other type keeps its selection |
| FarmMapPage.WithoutAbsent | src/app/asan/page.tsx:134 | removing an absent type changes nothing |
| FarmMapPage.WithoutAppendSelf | src/app/asan/page.tsx:134 | removing a type after appending it is the same as removing it |
| FarmMapPage.ToggleTwice | src/app/asan/page.tsx:133-135 | toggling an unselected type twice gives the selection back |
| FarmMapPage.ToggleAll | src/app/asan/page.tsx:137-139 | toggle-all gives [] when the selection has as many entries as the type list, and the whole list otherwise |
| FarmMapPage.ToggleAllComparesLengths | src/app/asan/page.tsx:138 | a selection of the right length holding other types still counts as all selected |
| FarmMapPage.WeatherPoller.constructor | src/app/asan/page.tsx:170 | the last accepted reading starts at direction 0, humidity 50, speed 1 |
| FarmMapPage.WeatherPoller.Poll | src/app/asan/page.tsx:179-193 | missing fields read as 0, 50 and 1; direction, humidity and speed are each updated independently, only when they moved by more than 3 degrees, 3 or 0.2 from the last accepted value, and the shown values always equal the accepted ones |
| FarmMapPage.AcceptFans | src/app/asan/page.tsx:216 | the kept fans agree with the new result; the previous list is kept only when it is the same by `sameFans` |
| FarmMapPage.AcceptFansIdempotent | src/app/asan/page.tsx:216 | accepting the same result twice changes nothing the second time |
| FarmMapPage.Decide | src/app/asan/page.tsx:237-271 | a payload is posted exactly when a worker exists and the speed moved by more than 0.2, the humidity by more than 3, the direction by more than 3 degrees, the stability differs, or the farm hash changed; it holds the visible farms, the maximum and the environment; the record is updated only then, with stability 'neutral' |
| FarmMapPage.DecideSettles | src/app/asan/page.tsx:250-268 | right after a post, the same inputs with stability 'neutral' post nothing |
| FarmMapPage.NonNeutralAlwaysPosts | src/app/asan/page.tsx:254-266 | because the recorded stability is always 'neutral', a 'stable' or 'unstable' environment posts on every run |
| FarmMapPage.BelowThresholdsQuiet | src/app/asan/page.tsx:250-259 | drifts within every threshold with an unchanged hash post nothing |
| FarmMapPage.OdorDispatcher.constructor | src/app/asan/page.tsx:231-232 | the recorded state starts at (0, 0, 0, 'neutral') with hash '' |
| FarmMapPage.OdorDispatcher.Evaluate | src/app/asan/page.tsx:237-271 | one run of the effect returns the decided payload and leaves the refs in the decided state |
| FarmMapPage.Dispatch | src/app/asan/page.tsx:233-270 | the effect followed by the throttled post: when nothing is decided the throttle is untouched; a decided payload is delivered at once when `wait` has passed since the last run, and otherwise arms the timer for `lastTs + wait` with that payload; the throttle's function is kept |
| FarmMapPage.OdorCategory | src/app/asan/page.tsx:370-378 | 소 exactly for the three cattle breeds, 닭 exactly for the two poultry types, 돼지 and 사슴 for themselves, 기타 for the rest |
| FarmMapPage.StrokeColor | src/app/asan/page.tsx:379 | every category has a stroke colour in the table, so the lookup never fails |
| ComplaintClustering.ValidComplaints | src/app/hooks/useComplaintClustering.ts:28 | keeps exactly the complaints with truthy lat and lng (0 is dropped like null) |
| ComplaintClustering.CellsOf | src/app/hooks/useComplaintClustering.ts:38 | one grid cell per complaint |
| ComplaintClustering.CellsOfIndex | src/app/hooks/useComplaintClustering.ts:38 | the i-th cell is the cell of the i-th complaint |
| ComplaintClustering.InCellMembers | src/app/hooks/useComplaintClustering.ts:37-44 | the complaints of one cell are exactly those whose floor(lat/0.0005), floor(lng/0.0005) is that cell |
| ComplaintClustering.MembersSnoc | src/app/hooks/useComplaintClustering.ts:89-94 | appending a cluster appends its member list |
| ComplaintClustering.IdsSnoc | src/app/hooks/useComplaintClustering.ts:54-79 | marking a complaint processed adds its id |
| ComplaintClustering.DistinctSnoc | src/app/hooks/useComplaintClustering.ts:51-66 | taking a complaint whose id is not yet processed keeps the taken ids distinct |
| ComplaintClustering.BuildGrid | src/app/hooks/useComplaintClustering.ts:34-44 | the spatial hash lists the occupied cells in order of first appearance and each cell's complaints in input order |
| ComplaintClustering.GridStep | src/app/hooks/useComplaintClustering.ts:38-43 | one complaint adds its cell at the end when new and is pushed onto its cell's list |
| ComplaintClustering.GridStepOld | src/app/hooks/useComplaintClustering.ts:39-42 | a complaint whose cell is already in the hash leaves the cell list unchanged and is pushed onto the end of that cell's list |
| ComplaintClustering.GridStepNew | src/app/hooks/useComplaintClustering.ts:39-42 | a complaint in a new cell appends that cell to the insertion order and opens its list holding just that complaint |
| ComplaintClustering.InCellEmpty | src/app/hooks/useComplaintClustering.ts:63 | a cell that never appears holds no complaint (the `|| []` default) |
| ComplaintClustering.CellListed | src/app/hooks/useComplaintClustering.ts:37-44 | every valid complaint's cell is in the spatial hash |
| ComplaintClustering.ScanCell | src/app/hooks/useComplaintClustering.ts:65-81 | over one neighbour list, an untaken complaint other than the seed joins exactly when within 100 m; afterwards every complaint of the list is taken or farther than 100 m from the seed |
| ComplaintClustering.GrowCluster | src/app/hooks/useComplaintClustering.ts:53-83 | the cluster starts with its seed, its other members lie in the seed's 3x3 neighbourhood within 100 m of the seed and were untaken; afterwards every valid complaint of that neighbourhood is taken or farther than 100 m |
| ComplaintClustering.LoopStateSeparated | src/app/hooks/useComplaintClustering.ts:51-80 | a later seed lying in an earlier seed's neighbourhood is more than 100 m from it |
| ComplaintClustering.MembersPrefix | src/app/hooks/useComplaintClustering.ts:89-94 | every member of every cluster is among all members |
| ComplaintClustering.AddCluster | src/app/hooks/useComplaintClustering.ts:86-94 | pushing a finished cluster keeps the loop invariant: well-formed clusters of valid, distinct complaints with separated seeds |
| ComplaintClustering.CoveredStep | src/app/hooks/useComplaintClustering.ts:50-51 | after visiting a complaint of the current cell it is taken |
| ComplaintClustering.CoveredNextCell | src/app/hooks/useComplaintClustering.ts:49-50 | after a whole cell every complaint of the cells visited so far is taken |
| ComplaintClustering.DistinctCount | src/app/hooks/useComplaintClustering.ts:46 | a list without repeated ids holds each complaint at most once |
| ComplaintClustering.Partition | src/app/hooks/useComplaintClustering.ts:46-54 | members drawn from the valid complaints, with distinct ids and covering every valid id, are a permutation of them |
| ComplaintClustering.MemberOfSameId | src/app/hooks/useComplaintClustering.ts:46-54 | when ids are distinct, a covered valid complaint is itself a member |
| ComplaintClustering.ClustersAtMostMembers | src/app/hooks/useComplaintClustering.ts:89-94 | every cluster has a member, so there are no more clusters than members |
| ComplaintClustering.CreateClusteredMarkers | src/app/hooks/useComplaintClustering.ts:24-98 | no valid complaint gives []; each cluster is a star around its seed (other members in the seed's 3x3 neighbourhood within 100 m), its count is its member count, its position the mean of the members and its region the seed's; the members are valid, have distinct ids and cover every valid id; neighbouring seeds are more than 100 m apart; with distinct ids the members are a permutation of the valid complaints and there are no more clusters than valid complaints |
| ComplaintsPage.ScanAll | src/app/complaints/page.tsx:223-244 | over the whole list, a located, untaken complaint other than the seed joins exactly when within 100 m; afterwards every located complaint is taken or farther than 100 m from the seed |
| ComplaintsPage.SeedOrderSnoc | src/app/complaints/page.tsx:214-220 | a new seed comes from a later input position than the previous seeds |
| ComplaintsPage.PairStateSeparated | src/app/complaints/page.tsx:215-243 | any two seeds are more than 100 m apart |
| ComplaintsPage.AddPairCluster | src/app/complaints/page.tsx:247-255 | pushing a finished cluster keeps the loop invariant |
| ComplaintsPage.CoveredStep | src/app/complaints/page.tsx:214-220 | after visiting position i every located complaint up to it is taken |
| ComplaintsPage.SeedCluster | src/app/complaints/page.tsx:219-244 | the seed followed by the untaken located complaints within 100 m of it; afterwards every located complaint is taken or farther than 100 m |
| ComplaintsPage.Visit | src/app/complaints/page.tsx:214-256 | complaint i seeds a cluster unless it is taken or has a falsy coordinate, keeping the invariant, the seed order and the coverage |
| ComplaintsPage.CreateClusteredMarkers | src/app/complaints/page.tsx:204-259 | each cluster is its seed followed by located complaints within 100 m of it, with count, mean position and the seed's region; members are located, have distinct ids and cover every located id; any two seeds are more than 100 m apart; seeds come in input order; with distinct ids the members are a permutation of the located complaints |
| ComplaintsPage.PairFinish | src/app/complaints/page.tsx:214-258 | after the last complaint every located complaint is covered and the clusters partition them when ids are distinct |
| ComplaintsPage.ClustersAtMostPairMembers | src/app/complaints/page.tsx:250-255 | there are no more clusters than members |
| ComplaintsPage.HandleMarkerClick | src/app/complaints/page.tsx:174-184 | the cluster's own array is sorted in place newest first as a permutation, and the selected complaint is its element 0 (none for an empty array) |
| ComplaintsPage.LatestIsNewest | src/app/complaints/page.tsx:180-183 | the selected complaint is at least as recent as every complaint of the cluster |
| ComplaintsPage.SwapDown | src/app/complaints/page.tsx:180-182 | exchanges two neighbouring entries and leaves the rest and the multiset unchanged |
| ComplaintsPage.SortNewestFirst | src/app/complaints/page.tsx:180-182 | the array is a permutation of its old contents, newest first |
| Tally.Keys | src/app/utils/complaints.ts:11-16 | the distinct keys of the list in order of first appearance (the dictionary's entry order) |
| Tally.Tally | src/app/utils/complaints.ts:11-17 | one entry per distinct key, in first-appearance order, holding the key's number of occurrences |
| Tally.TallySnocOld | src/app/utils/complaints.ts:14 | counting a key already present increments its own entry in place |
| Tally.TallySnocNew | src/app/utils/complaints.ts:14 | counting a new key appends the entry (key, 1) |
| Tally.SumCountsIncrement | src/app/utils/complaints.ts:14 | incrementing one entry raises the total by one |
| Tally.SumCountsAppend | src/app/utils/complaints.ts:14 | appending an entry adds its count to the total |
| Tally.TallySum | src/app/utils/complaints.ts:11-17 | the counts add up to the length of the list |
| Tally.TallyEntries | src/app/utils/complaints.ts:11-17 | no key appears twice, a key has an entry exactly when it occurs, and every count is at least 1 |
| Tally.CountKeys | src/app/utils/complaints.ts:11-16 | the counting `forEach` fills the dictionary so that its entries are the tally of the list |
| ComplaintStats.RegionStats | src/app/utils/complaints.ts:10-19 | the counting loop followed by the sort returns the region rows |
| ComplaintStats.PeriodStats | src/app/utils/complaints.ts:32-41 | the counting loop followed by the sort returns the time-period rows |
| ComplaintStats.MonthStats | src/app/utils/complaints.ts:21-30 | the counting loop followed by the sort returns the month rows |
| ComplaintStats.DuplicateCount | src/app/utils/complaints.ts:16-18 | an element at two positions occurs at least twice |
| ComplaintStats.NoDuplicatesCount | src/app/utils/complaints.ts:16-18 | in a list without repeats each element occurs at most once |
| ComplaintStats.PermutationNoDuplicates | src/app/utils/complaints.ts:16-18 | sorting the entries cannot create a repeated key |
| ComplaintStats.SumCountsInsert | src/app/utils/complaints.ts:18 | inserting a row adds its count to the total |
| ComplaintStats.SumCountsSortBy | src/app/utils/complaints.ts:18 | sorting the rows keeps the total |
| ComplaintStats.SortedTallySpec | src/app/utils/complaints.ts:10-41 | whatever the comparator, the sorted rows have one row per distinct key, the key's occurrence count (at least 1) and a total equal to the number of complaints |
| ComplaintStats.GroupStatsSpec | src/app/utils/complaints.ts:10-41 | the rows have distinct keys, exactly the keys that occur, each with its occurrence count, a total equal to the input length, and counts non-increasing |
| ComplaintStats.RegionStatsSpec | src/app/utils/complaints.ts:10-19 | every complaint is counted once under its region (a falsy region as '미분류'), rows are distinct and sorted by count descending, and every row's count is at least 1 |
| ComplaintStats.PeriodStatsSpec | src/app/utils/complaints.ts:32-41 | the same for time periods, with a null or empty period as '미분류' |
| ComplaintStats.MonthStatsSpec | src/app/utils/complaints.ts:21-30 | with months in 1..12 every key is the decimal month number, each count is at least 1, the counts sum to the input length and the rows are in strictly increasing month order |
| ComplaintStats.MonthRowsAreMonths | src/app/utils/complaints.ts:24 | every month key is the decimal text of a number in 1..12 |
| ComplaintStats.MonthRowsIncreasing | src/app/utils/complaints.ts:29 | distinct decimal keys sorted by `parseInt` are strictly increasing |
| ComplaintStats.MarkerScale | src/app/utils/complaints.ts:54-61 | the scale is one of 8, 12, 16, 20, 24, 28, and 8 exactly for a single complaint |
| ComplaintStats.MarkerScaleMonotone | src/app/utils/complaints.ts:54-61 | a larger cluster never gets a smaller marker |
| ComplaintStats.MarkerScaleBands | src/app/utils/complaints.ts:54-61 | 12 up to 5 (zero and negative counts included), 16 for 6-10, 20 for 11-20, 24 for 21-50, 28 above 50 |
| ComplaintData.FilterComplaints | src/app/hooks/useComplaintData.ts:89-110 | keeps exactly the complaints inside the date range (no comparison with an invalid date succeeds), of the selected region unless 'all', and of the selected period unless 'all' |
| ComplaintData.FilterIsSubsequence | src/app/hooks/useComplaintData.ts:89 | the filtered list keeps the loaded order |
| ComplaintData.StatsOf | src/app/hooks/useComplaintData.ts:115-120 | the total is the number of filtered complaints |
| ComplaintData.LoadComplaints | src/app/hooks/useComplaintData.ts:69-74 | a load stores the list and the region rows of the whole list and touches nothing else |
| ComplaintData.ApplyFilters | src/app/hooks/useComplaintData.ts:86-124 | nothing changes while no complaint is loaded; otherwise the filtered list and its statistics are replaced and the loaded list, region rows and filters are kept |
| ComplaintData.UpdateFilters | src/app/hooks/useComplaintData.ts:136-138 | each supplied key replaces the previous value (a date range as a whole) and the others are kept |
| ComplaintData.UpdateFiltersLaws | src/app/hooks/useComplaintData.ts:136-138 | an empty patch changes nothing, the later patch wins, and applying the same patch twice is applying it once |
| ComplaintData.ApplyFiltersSpec | src/app/hooks/useComplaintData.ts:86-124 | the kept complaints are exactly the matching ones, in loaded order; the total is their number and the region, month and period breakdowns each sum to it |
| ComplaintData.ApplyFiltersIdempotent | src/app/hooks/useComplaintData.ts:86-124 | filtering twice is filtering once |
| ComplaintData.AllRegionsIgnoreFilters | src/app/hooks/useComplaintData.ts:72-74 | the region list from the load does not depend on later filter changes |
| ComplaintData.InvalidDatePasses | src/app/hooks/useComplaintData.ts:91-97 | a complaint with an invalid date passes every date range |
| ComplaintData.NullPeriodExcluded | src/app/hooks/useComplaintData.ts:105 | a selected time period excludes complaints without a period |
| TtlCache.Remove | src/app/api/v2/complaints/route.ts:36 | taking a key out of the iteration order drops exactly that key, keeps the order duplicate-free, shortens it by one when the key was there and leaves it alone otherwise |
| TtlCache.DistinctCons | src/app/api/v2/complaints/route.ts:36 | putting back the first key in front of a duplicate-free rest drawn from the tail keeps the order duplicate-free |
| TtlCache.InsertedWellFormed | src/app/api/v2/complaints/route.ts:41 | `cache.set` keeps the order listing every key once and grows it by one exactly for a new key |
| TtlCache.LookupSpec | src/app/api/v2/complaints/route.ts:31-38 | a key is answered if and only if it is present and younger than the time-to-live, and then with its stored data and the cache unchanged; otherwise only that key is deleted; no entry changes value and the capacity bound is kept |
| TtlCache.StoreSpec | src/app/api/v2/complaints/route.ts:40-50 | after a store the key holds the new stamped data, the cache is within its capacity, no other entry changes value, and an entry is lost only when a new key overflows a full cache, and then it is the earliest inserted key |
| TtlCache.StoreThenLookup | src/app/api/v2/complaints/route.ts:31-50 | a stored response is returned by a lookup of its key within the time-to-live |
| TtlCache.StoreThenExpire | src/app/api/v2/complaints/route.ts:33-36 | once the time-to-live has passed, a lookup of a stored key finds nothing and deletes it |
| TtlCache.EmptyKeyBlocksEviction | src/app/api/v2/complaints/route.ts:44-48 | the size check as written: with `""` the oldest key of a cache at or over its capacity, storing a new key appends it and evicts nothing, so the cache grows by one, stays over capacity and keeps `""` first, which is again the lemma's precondition for the next new key |
| TtlCache.EmptyKeyOverflowExample | src/app/api/v2/complaints/route.ts:44-48 | a full one-entry cache holding `""` grows to two entries on storing another key |
| TtlCache.StoreAsWrittenAgrees | src/app/api/v2/complaints/route.ts:44-48 | when no key is `""` the size check as written behaves like the always-evicting one |
| TtlCache.Cache.constructor | src/app/api/v2/complaints/route.ts:21-22 | a route's cache starts empty, with its time-to-live and capacity |
| TtlCache.Cache.Get | src/app/api/v2/complaints/route.ts:31-38 | `getCachedData` answers and updates the cache as `Lookup` (whose properties `LookupSpec` states) and keeps the cache well formed |
| TtlCache.Cache.Set | src/app/api/v2/complaints/route.ts:40-50 | `setCachedData` updates the cache as the always-evicting `Store` (whose properties `StoreSpec` states) and keeps it within capacity |
| ComplaintApi.SortNewestFirst | src/app/api/v2/complaints/route.ts:98-102 | the sorted complaints are a permutation of the input ordered by received time, newest first |
| ComplaintApi.DayOf | src/app/api/v2/complaints/route.ts:113 | `split('T')[0]` is the longest prefix without a `T`, ending just before the first `T` when there is one |
| ComplaintApi.RelativeIndex | src/app/api/v2/complaints/route.ts:108 | `slice` resolves an index into [0, length]: an in-range index is kept, one past the end becomes the length |
| ComplaintApi.SliceFrom | src/app/api/v2/complaints/route.ts:107-108 | `slice(skip, skip + limit)` from a non-negative `skip` holds at most `limit` elements, all of them when the range fits, is the contiguous run from `skip`, and elements remain after it exactly when `skip + limit` is short of the length |
| ComplaintApi.PaginateSpec | src/app/api/v2/complaints/route.ts:107-130 | a page is the elements from `skip` to `skip + limit` that exist, at most `limit` of them and exactly `limit` when the range fits, and `hasMore` holds if and only if elements remain beyond the page |
| ComplaintApi.PagesAdjoin | src/app/api/v2/complaints/route.ts:107-108 | two consecutive pages together are the contiguous run of two limits from the first page's skip, with no gap or overlap |
| ComplaintApi.PaginateNaN | src/app/api/v2/complaints/route.ts:68-130 | a page or limit that `parseInt` makes NaN gives an empty page and `hasMore` false |
| ComplaintListRoute.CacheKeyOrderIndependent | src/app/api/v2/complaints/route.ts:24-29 | the cache key of a query without repeated names does not depend on the order of its parameters |
| ComplaintListRoute.JoinNonEmpty | src/app/api/v2/complaints/route.ts:28 | joining parts whose first part is non-empty gives a non-empty string |
| ComplaintListRoute.EmptyKeyIffNoParams | src/app/api/v2/complaints/route.ts:24-48 | the cache key is `""` if and only if the request has no query parameters |
| ComplaintListRoute.GetParam | src/app/api/v2/complaints/route.ts:70-73 | `searchParams.get` finds a value if and only if some pair has that name, and the value is one given for that name |
| ComplaintListRoute.DefaultPage | src/app/api/v2/complaints/route.ts:68 | without a `page` parameter the page is 1 |
| ComplaintListRoute.DefaultLimit | src/app/api/v2/complaints/route.ts:69 | without a `limit` parameter the limit is 5000 |
| ComplaintListRoute.ParseFiveThousand | src/app/api/v2/complaints/route.ts:69 | `parseInt('5000')` is 5000 |
| ComplaintListRoute.Filter | src/app/api/v2/complaints/route.ts:78-95 | a complaint is kept if and only if it has truthy coordinates, matches a chosen region and time period, and, when both dates are given, its ISO day lies between them; the result is no longer than the data |
| ComplaintListRoute.Selected | src/app/api/v2/complaints/route.ts:98-102 | the selected complaints are a permutation of the filtered ones |
| ComplaintListRoute.SelectedNewestFirst | src/app/api/v2/complaints/route.ts:98-102 | the selected complaints are ordered newest first |
| ComplaintListRoute.SelectedMembers | src/app/api/v2/complaints/route.ts:78-102 | a complaint is selected if and only if it is in the data and passes the filter |
| ComplaintListRoute.Rows | src/app/api/v2/complaints/route.ts:111-118 | one row per complaint of the page, in order, carrying its id, region, coordinates and time period, with the date cut just before the first `T` of `receivedDate` |
| ComplaintListRoute.RespondTotals | src/app/api/v2/complaints/route.ts:104-131 | `totalCount` is the number of selected complaints, page and limit are echoed, and a NaN page or limit gives no rows and no `hasMore` |
| ComplaintListRoute.RespondWindow | src/app/api/v2/complaints/route.ts:107-130 | for page ≥ 1 and limit ≥ 0 at most `limit` rows are returned and `hasMore` holds if and only if selected complaints remain beyond the page |
| ComplaintListRoute.RespondRows | src/app/api/v2/complaints/route.ts:107-118 | the rows are those of the selected complaints from position `skip` on, in order |
| ComplaintListRoute.RespondIsPage | src/app/api/v2/complaints/route.ts:107-118 | the rows are the rows of the paginated selection |
| ComplaintListRoute.PageRows | src/app/api/v2/complaints/route.ts:108-118 | the rows of a non-empty page are the rows of the contiguous run of the sorted complaints from `skip` |
| ComplaintListRoute.Get | src/app/api/v2/complaints/route.ts:52-136 | `GET` returns the fresh cached response for the canonical key if there is one, leaving the cache as the lookup does; otherwise it returns the response computed from the data and stores it under the key |
| ComplaintContent.NumericIds | src/app/api/v2/complaints/content/route.ts:67 | the valid ids are exactly the numbers among the given ids |
| ComplaintContent.ValidateSpec | src/app/api/v2/complaints/content/route.ts:60-71 | a body is answered 400 'missing' if and only if `ids` is absent, not an array or empty; it is accepted if and only if `ids` is an array holding a number; then the valid ids are its numbers and page and limit default to 1 and 20 |
| ComplaintContent.IdList | src/app/api/v2/complaints/content/route.ts:30 | the i-th text is `String` of the i-th id |
| ComplaintContent.IdListReadsBack | src/app/api/v2/complaints/content/route.ts:30 | each rendered id reads back as that id and holds no `,`, so the joined key determines the sorted ids |
| ComplaintContent.CacheKeyOrderIndependent | src/app/api/v2/complaints/content/route.ts:27-31 | permuting the ids does not change the cache key |
| ComplaintContent.CacheKeyNonEmpty | src/app/api/v2/complaints/content/route.ts:30-50 | every content cache key starts with `page:`, so it is truthy and the size check always evicts |
| ComplaintContent.Rows | src/app/api/v2/complaints/content/route.ts:102-112 | one row per complaint of the page, in order, carrying its id, region, content, coordinates, time period and both addresses, with the date cut just before the first `T` of `receivedDate` |
| ComplaintContentListRoute.WithIds | src/app/api/v2/complaints/content/route.ts:86 | a complaint is kept if and only if it is in the data and its id is a valid id |
| ComplaintContentListRoute.Selected | src/app/api/v2/complaints/content/route.ts:86-93 | the selected complaints are a permutation of those with a valid id |
| ComplaintContentListRoute.SelectedSpec | src/app/api/v2/complaints/content/route.ts:86-95 | the selected complaints are exactly those of the data with a valid id, ordered newest first, and `totalCount` counts them |
| ComplaintContentListRoute.RespondWindow | src/app/api/v2/complaints/content/route.ts:95-124 | `totalCount` is the number of matching complaints, at most `limit` rows are returned, and `hasMore` holds if and only if matching complaints remain beyond the page |
| ComplaintContentListRoute.RespondRows | src/app/api/v2/complaints/content/route.ts:98-112 | the rows are those of the matching complaints from position `skip` on, newest first |
| ComplaintContentListRoute.RespondIsPage | src/app/api/v2/complaints/content/route.ts:98-112 | the rows are the rows of the paginated selection |
| ComplaintContentListRoute.PageRecords | src/app/api/v2/complaints/content/route.ts:98-112 | the rows of a non-empty page are the rows of the contiguous run of the sorted complaints from `skip` |
| ComplaintContentListRoute.Post | src/app/api/v2/complaints/content/route.ts:54-130 | a body failing either id check is answered 400 with the cache untouched; otherwise the fresh cached response for the key is returned, or the computed page is returned and stored |
| ComplaintContentDbRoute.AgreesWithDataset | src/app/api/complaints/content/route.ts:86-140 | a database answering like the dataset (matching complaints newest first, cut by `skip` and `take`, and their count) makes this route's response equal to the dataset-backed route's |
| ComplaintContentDbRoute.Post | src/app/api/complaints/content/route.ts:54-145 | a body failing either id check is answered 400 without touching the cache or the database; a fresh cached response is returned without a query; on a miss the database is queried once and its page, with `hasMore` as `skip + rows < totalCount`, is returned and stored |
| ComplaintList.TotalPages | src/app/components/complaints/ComplaintList.tsx:39-70 | the page count is the least number of 20-row pages holding the total, and 0 exactly for no complaints |
| ComplaintList.PageButtons | src/app/components/complaints/ComplaintList.tsx:269 | there are `min(5, totalPages)` page buttons |
| ComplaintList.PageButtonsInRange | src/app/components/complaints/ComplaintList.tsx:269-279 | the buttons carry consecutive increasing page numbers, all between 1 and the page count, whatever the current page |
| ComplaintList.PageButtonsContainCurrent | src/app/components/complaints/ComplaintList.tsx:269-279 | a current page between 1 and the page count has a button, and away from both ends it is the middle one of five |
| ComplaintList.PrevNextClamp | src/app/components/complaints/ComplaintList.tsx:260-299 | previous never goes below page 1 and next never beyond the last page; from a valid page both stay valid and move by one when they can |
| ComplaintList.RowNumbersConsecutive | src/app/components/complaints/ComplaintList.tsx:218 | row numbers start at 1, continue from one page to the next, and differ for different (page, row) pairs |
| ComplaintList.OrdersArePreorders | src/app/components/complaints/ComplaintList.tsx:102-108 | each of the three comparators is a total preorder, so the sort is well defined |
| ComplaintList.SortedComplaintsSpec | src/app/components/complaints/ComplaintList.tsx:99-112 | the sorted copy is a permutation of the loaded rows, ordered newest first, oldest first, or by region text with a missing region as `''` |
| ScaleFilterPanel.InitialRangeMap | src/app/components/asan/LivestockCombinedFilterPanel.tsx:36-45 | the initial map gives every group a pair of valid indices into its own buckets |
| ScaleFilterPanel.BuildInitialRangeMap | src/app/components/asan/LivestockCombinedFilterPanel.tsx:36-45 | the `reduce` over the groups builds the map that spans each group's whole bucket list, `[0, len - 1]` |
| ScaleFilterPanel.ReportsExactlyChanged | src/app/components/asan/LivestockCombinedFilterPanel.tsx:54-68 | a notification run reports a group if and only if its pair differs from the remembered map, with the low bucket's minimum and the high bucket's maximum, at most one report per group |
| ScaleFilterPanel.FirstRunReportsAll | src/app/components/asan/LivestockCombinedFilterPanel.tsx:53-66 | the first run, with nothing remembered, reports every group in group order |
| ScaleFilterPanel.UnchangedReportsNothing | src/app/components/asan/LivestockCombinedFilterPanel.tsx:56-66 | a run with the remembered map equal to the current one reports nothing |
| ScaleFilterPanel.Panel.constructor | src/app/components/asan/LivestockCombinedFilterPanel.tsx:36-53 | the panel starts with the initial full ranges and an empty remembered map |
| ScaleFilterPanel.Panel.HandleChange | src/app/components/asan/LivestockCombinedFilterPanel.tsx:71-73 | moving a slider replaces only that group's pair and keeps every pair within its buckets |
| ScaleFilterPanel.Panel.ResetAll | src/app/components/asan/LivestockCombinedFilterPanel.tsx:76-78 | resetting restores the initial full ranges |
| ScaleFilterPanel.Panel.NotifyChanges | src/app/components/asan/LivestockCombinedFilterPanel.tsx:54-68 | the effect's loop emits exactly the reports of `ReportsOf` for the remembered and current maps, then remembers the current map |
| WeatherPanel.GuidanceCases | src/app/components/asan/WeatherPanel.tsx:29-35 | each guidance message is chosen exactly under its own condition; wind at or below 1.0 or at or above 2.0 decides regardless of humidity |
| WeatherPanel.MessagesDistinct | src/app/components/asan/WeatherPanel.tsx:30-34 | the five guidance texts are pairwise different |
| WeatherPanel.TickIndicesSpec | src/app/components/asan/WeatherPanel.tsx:111-115 | the day ticks are 0, 8, 16, …, at most five, all inside the forecast list, none for an empty list, and covering the list when fewer than five |
| WeatherPanel.CaptionLabel | src/app/components/asan/WeatherPanel.tsx:128 | a selected forecast entry is captioned with three hours per step and, within five days, with the day tick whose block holds it; past five days the label is `undefined` |
| WeatherPanel.Forwarded | src/app/components/asan/WeatherPanel.tsx:88-92 | the parent receives the selected forecast entry if and only if the index is positive and inside the list |
| PieChartPanel.ChartGroupMatchesTable | src/app/components/asan/LivestockPieChartPanel.tsx:24-31 | the chart's grouping agrees with the shared type-to-group table on the types it lists and leaves every other type as its own group |
| PieChartPanel.ChartData | src/app/components/asan/LivestockPieChartPanel.tsx:20-36 | the counting loop produces the slices of the tally of the farms' groups |
| PieChartPanel.SliceTotalIsSum | src/app/components/asan/LivestockPieChartPanel.tsx:32-35 | the slice values add up to the tally's counts |
| PieChartPanel.ChartDataSpec | src/app/components/asan/LivestockPieChartPanel.tsx:20-36 | the slice values add up to the number of farms, every group of a listed farm has exactly one slice of value at least one, and no farms give no slices |
| OdorOverlay.ToInt32 | src/app/components/asan/OdorOverlay.tsx:22 | the shift operand is the value's signed 32-bit representative, congruent to it modulo 2^32 |
| OdorOverlay.HexToRgb | src/app/components/asan/OdorOverlay.tsx:19-23 | every colour component is a byte |
| OdorOverlay.Channels | src/app/components/asan/OdorOverlay.tsx:22 | the shifted and masked components are bytes |
| OdorOverlay.ParseHexDigits | src/app/components/asan/OdorOverlay.tsx:21 | `parseInt(s, 16)` of hex digits is their positional value |
| OdorOverlay.RgbOfValue | src/app/components/asan/OdorOverlay.tsx:19-23 | a parsed value below 2^24 is rebuilt exactly from its three components |
| OdorOverlay.SixDigitColour | src/app/components/asan/OdorOverlay.tsx:19-23 | for six hex digits the colour is the same with or without `#`, and its components put back together give the digits' value |
| OdorOverlay.NotHexIsBlack | src/app/components/asan/OdorOverlay.tsx:21-22 | a colour text that parses to NaN gives black |
| OdorOverlay.Defaults | src/app/components/asan/OdorOverlay.tsx:32-37 | leaving every optional prop out shows circle and sector at scales 0.6 and 0.8 with alphas 0.35 and 0.4 |
| OdorOverlay.SamePropsByValue | src/app/components/asan/OdorOverlay.tsx:128-142 | the memo comparator holds if and only if the props are equal apart from the identity of the centre object, and whenever it skips a render the drawing would be the same |
| OdorOverlay.ExplicitDefaultRerenders | src/app/components/asan/OdorOverlay.tsx:128-136 | passing `showCircle` explicitly as its default re-renders although it draws the same |
| FeedbackRoute.ItemTexts | src/app/api/feedback/route.ts:10 | one text per array element, in order: `""` for a null or missing element, otherwise the element's own string conversion |
| FeedbackRoute.PostSpec | src/app/api/feedback/route.ts:7-27 | a body is refused for missing fields if and only if a required field is falsy or the categories are empty; otherwise it is refused for intensity if and only if the intensity does not parse to 1–5; a stored record carries the parsed intensity, the given fields, a non-empty category list and a null contact when none was given |
| FeedbackRoute.AcceptedWhenValid | src/app/api/feedback/route.ts:10-27 | a body that passes the field checks, has an intensity parsing to 1–5 and an array of categories is stored with that intensity |
| FeedbackRoute.ZeroIntensity | src/app/api/feedback/route.ts:13-19 | the number 0 is reported as a missing field, the string "0" as out of range |
| FeedbackRoute.IntensityPrefix | src/app/api/feedback/route.ts:10-17 | an intensity text with a number 1–5 followed by non-digits is accepted as that number |
| FeedbackRoute.NumericIntensity | src/app/api/feedback/route.ts:10-17 | a whole JSON number 1–5 is accepted as that intensity |
| FeedbackRoute.ExponentIntensity | src/app/api/feedback/route.ts:10-17 | a JSON number `d·10^k` with `k` ≥ 21 and `d` in 1–5 (such as `3e21`) is converted to exponent text first and so stored with intensity `d` |
| HeaderNav.MenuEntries | src/app/components/common/Header.tsx:73-74 | entry i is navigation item i, highlighted exactly when the path is that item's `href` or lies below it |
| HeaderNav.NavItemsSpec | src/app/components/common/Header.tsx:14-18 | Home is listed if and only if the path is not `/`, and the odour map and the complaint map always end the list, in that order |
| HeaderNav.ActiveBelow | src/app/components/common/Header.tsx:74 | an item is highlighted on its own path and every path below it, and every menu entry carries its item's highlight |
| HeaderNav.SiblingNotActive | src/app/components/common/Header.tsx:74 | a path that only begins with the same letters, not followed by `/`, does not highlight the item |
| HeaderNav.HomeActive | src/app/components/common/Header.tsx:15-74 | when Home is listed it is highlighted only on paths starting with `//` |
| ExportArguments.FormatOf | scripts/export-complaints.ts:120-121 | a format is accepted if and only if its lower-cased text is `csv` or `json`, and then it is that format |
| ExportArguments.StepAt | scripts/export-complaints.ts:116-196 | each step of the loop moves forward, never past the end of the arguments |
| ExportArguments.ParseArguments | scripts/export-complaints.ts:110-199 | the argument loop ends with the outcome of `Parse` |
| ExportArguments.Visit | scripts/export-complaints.ts:117-195 | one pass of the loop body for `args[i]` does what `StepAt` says: the exit code, or the new options and the next index |
| ExportArguments.ParseShift | scripts/export-complaints.ts:116 | arguments in front do not change how a later position is read |
| ExportArguments.StepOnConsumes | scripts/export-complaints.ts:116-196 | every branch of the loop body consumes its token alone, or its token and the value after it when one follows |
| ExportArguments.LoopShift | scripts/export-complaints.ts:116 | for any loop body that consumes one token or a token and its value, arguments in front do not change how a later position is read |
| ExportArguments.ParseAppend | scripts/export-livestock-farms.ts:112-192 | parsing two parts together is parsing the first and continuing with the second, unless the first ends with a flag that would take its value from the second |
| ExportArguments.NoArguments | scripts/export-complaints.ts:112-198 | with no arguments the format is csv and nothing else is set |
| ExportArguments.FormatEqForm | scripts/export-complaints.ts:119-126 | `--format=V` sets the format for `csv` or `json` in any case, read up to the next `=`, and exits with 1 otherwise |
| ExportArguments.FormatSpaceForm | scripts/export-complaints.ts:127-135 | `--format V` accepts the same values from the next token and exits with 1 otherwise |
| ExportArguments.OutputEqForm | scripts/export-complaints.ts:136-137 | `--output=V` sets the output to the text up to the next `=` |
| ExportArguments.OutputSpaceForm | scripts/export-complaints.ts:138-140 | `--output V` sets the output to the whole next token |
| ExportArguments.LimitEqForm | scripts/export-complaints.ts:141-148 | `--limit=V` sets the limit to `parseInt` of the value when it is a positive number and exits with 1 otherwise |
| ExportArguments.LimitSpaceForm | scripts/export-complaints.ts:149-157 | `--limit V` reads the next token the same way |
| ExportArguments.OffsetEqForm | scripts/export-complaints.ts:158-165 | `--offset=V` sets the offset when `parseInt` gives a number of at least 0 and exits with 1 otherwise |
| ExportArguments.OffsetSpaceForm | scripts/export-complaints.ts:166-174 | `--offset V` reads the next token the same way |
| ExportArguments.LimitNumericPrefix | scripts/export-complaints.ts:141-144 | `--limit=10abc` sets the limit to 10, as `parseInt` reads a numeric prefix |
| ExportArguments.HelpExits | scripts/export-complaints.ts:175-194 | `--help` and `-h` end the process with code 0, whatever follows |
| ExportArguments.IgnoredAlone | scripts/export-complaints.ts:127-196 | a flag with no value after it, or an unknown argument, is skipped |
| ExportArguments.IgnoredAtEnd | scripts/export-livestock-farms.ts:123-192 | appending such an argument does not change the outcome |
| ExportArguments.LaterLimitWins | scripts/export-complaints.ts:141-148 | a later valid `--limit` overrides whatever the earlier arguments set |
| ExportArguments.LaterFormatWins | scripts/export-livestock-farms.ts:123-131 | a later valid `--format` overrides whatever the earlier arguments set |
| ExportArguments.Sanitized | scripts/export-complaints.ts:49 | every `:` and `.` becomes `-`, every other character is kept |
| ExportArguments.Timestamp | scripts/export-complaints.ts:49 | the timestamp is the first 19 sanitised characters and holds no `:` or `.` |
| ExportArguments.OutputFile | scripts/export-complaints.ts:52 | a non-empty given output is used as is |
| ExportArguments.EmptyOutputUsesDefault | scripts/export-livestock-farms.ts:48-133 | `--output=` gives an empty, falsy output, so the default `public/data/<base>-<timestamp>.csv` is used |
| JsNumber.Trunc | src/app/utils/index.ts:5 | truncation toward zero, the quotient JavaScript's `%` uses: within one below a non-negative value and within one above a negative one |
| JsNumber.Mod360 | src/app/workers/odorWorker.ts:38 | the floored remainder modulo 360 lies in [0, 360) |
| JsNumber.JsRem360 | src/app/workers/odorWorker.ts:38-40 | JavaScript's `x % 360` keeps the sign of `x`: in [0, 360) for x ≥ 0 and in (−360, 0] for x < 0 |
| JsNumber.Mod360Unique | src/app/workers/odorWorker.ts:38 | the remainder in [0, 360) that differs from x by a multiple of 360 is `Mod360(x)` |
| JsNumber.Mod360Shift | src/app/workers/odorWorker.ts:38 | adding any multiple of 360 does not change the remainder |
| JsNumber.JsRemNonNegative | src/app/workers/odorWorker.ts:39-40 | on a non-negative dividend JavaScript's `%` is the floored remainder |
| JsNumber.NormalizeDeg | src/app/workers/odorWorker.ts:38 | `((d % 360) + 360) % 360` is the floored remainder of `d`, in [0, 360) for every `d` |
| JsNumber.RoundTenth | src/app/workers/odorWorker.ts:36 | `Math.round(x * 10) / 10` is within 0.05 of `x` and not negative for non-negative `x` |
| JsNumber.RoundTenthMonotone | src/app/workers/odorWorker.ts:36 | rounding to a tenth preserves order |
| JsNumber.RoundTenthExact | src/app/workers/odorWorker.ts:36 | a value with one decimal is unchanged by the rounding |
| JsNumber.Max | src/app/workers/odorWorker.ts:36 | `Math.max` of two values is one of them and at least both |
| JsNumber.Abs | src/app/utils/index.ts:5 | `Math.abs` is the value or its negation, and not negative |
| AsanFarmRoute.RoundTenthGap | src/app/api/asan-farm/route.ts:47 | two positive extents more than 0.1 apart round to different radii |
| FarmMapPage.AngleDiffSelf | src/app/asan/page.tsx:182 | a bearing differs from itself by 0 degrees, so an unchanged wind never triggers a recompute |
| JsText.Split | src/app/api/asan-farm/route.ts:74 | `split` gives at least one piece, none containing the separator, and the whole text when the separator is absent |
| JsText.SplitJoin | src/app/api/asan-farm/route.ts:74 | splitting a join of separator-free pieces gives the pieces back |
| FarmRouteCommon.KeepNonBlankIdentity | src/app/api/asan-farm/route.ts:74 | the blank filter keeps a list with no blank entry as it is |
| JsText.ToLower | scripts/export-complaints.ts:120-128 | ASCII lower-casing: each character is mapped on its own, `A`–`Z` to `a`–`z`, and the length is kept |
| JsText.ParseInt | src/app/api/feedback/route.ts:10 | `parseInt` is NaN exactly when no digit follows the optional whitespace, sign and hex prefix |
| JsText.ParseIntPrefix | src/app/api/feedback/route.ts:10 | `parseInt` of a number's decimal digits followed by a non-digit is that number |
| JsText.IntToStringRoundTrip | src/app/api/feedback/route.ts:10 | `parseInt` of the decimal digits of `n` is `n` for every integer |
| JsText.NumberToStringRoundTrip | src/app/api/feedback/route.ts:10 | below 10^21 in magnitude `String(n)` writes plain digits, and `parseInt` reads them back as `n` |
| JsText.ExponentReadsLeadingDigit | src/app/api/feedback/route.ts:10 | from 10^21 on `String(n)` is in exponent form, and `parseInt` reads only its first digit, which lies in 1–9, with the sign of `n` |
| JsText.ExponentForm | src/app/api/feedback/route.ts:10 | `String(d·10^k)` for `k` ≥ 21 is the digit `d`, `e+` and the decimal `k`, as `String(3e21)` is `"3e+21"` |
| JsText.ExponentFormReads | src/app/api/feedback/route.ts:10 | `parseInt` reads a digit followed by `e+` and any exponent text as that digit |
| JsText.StrLeTotalPreorder | src/app/api/v2/complaints/route.ts:26 | code-point string order is total, transitive and antisymmetric |
| Sorting.SortBy | src/app/api/v2/complaints/route.ts:98-102 | the stable sort returns a permutation of its input |
| Sorting.SortBySorted | src/app/api/v2/complaints/route.ts:98-102 | under a total preorder the result is sorted |
| Sorting.SortByPermutationInvariant | src/app/api/v2/complaints/content/route.ts:29 | under an order that ties only equal elements, permuting the input does not change the sorted result |
| Sorting.KeyOrdersArePreorders | src/app/api/v2/complaints/route.ts:98-102 | ascending and descending order by an integer key are total preorders |

## Left out

- I/O is not modelled: HTTP request parsing, `NextResponse`, `console` logging, `fetch`/`axios` calls in the pages, hooks and weather panel, and file writing in the export scripts. Each route is modelled from the parsed request to the response value.
- Prisma queries in the farm route and the database-backed content route are function parameters (`AsanFarmRoute.Get`'s rows, `ComplaintContentDbRoute.Database`). src/app/api/complaints/route.ts, the feedback `GET` and the categories route only pass data to and from the database; they are not part of this model.
- `Date.now()`, `new Date(...)`, `getTime`, `getMonth` and `toISOString` are parameters: a clock value `now`, a date-to-milliseconds function `time`, a month extractor and `isoDay`. The `RangeError` that `toISOString` throws on an invalid date, which the routes would answer with 500, is therefore not modelled.
- Timers are not modelled. The throttle's `setTimeout`/`clearTimeout` are an armed deadline that a `Fire` call at an explicit time runs, and the weather poll interval is a sequence of `Poll` calls.
- The web worker's lifecycle, messaging and `requestAnimationFrame` are not modelled; the worker's computation is.
- Haversine `calculateDistance` is a function parameter `Dist`, because trigonometry on floats cannot be stated exactly. The clustering properties hold for every distance function.
- Numbers are Dafny reals or integers. IEEE-754 rounding, NaN arithmetic and the float drift of the radius formula are not captured; an absent numeric query value or a NaN `parseInt` result is an `Option` None.
- `localeCompare` is code-point order on strings, a concrete total order; locale collation is not modelled.
- `OdorWorker.TypeMultiplier`: the multiplier tables (src/app/workers/odorWorker.ts:11-17 and the same table in both farm routes) and the counting objects (src/app/utils/complaints.ts:10-39, src/app/components/asan/LivestockPieChartPanel.tsx:20-36) are plain JavaScript objects. The model reads them as maps with no inherited names. A livestock type, region, period or group named after an `Object.prototype` member such as `constructor` or `toString` reads the inherited function there. The multiplier then becomes a function and the radius NaN, and a count starts from the function's text. For `__proto__` the assignment sets the prototype and no entry is created. The model gives such names the default multiplier 1 and ordinary counts.
- `Object.entries` puts integer-like keys first in numeric order; the counting dictionaries are read back in insertion order for every key. Region and period keys are not integer-like; the month keys are sorted numerically anyway.
- The livestock scale table `livestockScaleRanges` is not part of this model; the scale filter panel and the farm map page take it as a parameter.
- Map and canvas rendering are not modelled: the overlay's `draw`, the sector and circle overlays, the viewport-bounds filter and the pie chart's label geometry. React rendering, hooks' scheduling and the presentational components are not modelled either.
- `FeedbackRoute.Post`: JSON numbers in a feedback body are integers here, so an intensity such as `4.7` (read by `parseInt` as 4) is not covered. Integers are also exact, while JavaScript holds a JSON number as a double: above 2^53 `String` can write other digits than `JsText.NumberToString` does. For example, `9999999999999999999999` is the double 10^22, which is written `1e+22` and stored with intensity 1, where the model reads 9 and answers 400. The exponent form itself, used from 10^21 on, is modelled.
- `JsText.IntToString`: it is `String` of the ids, counts, months, page and limit in the cache keys, farm hashes and month keys, which the model takes to be below 10^21 in magnitude. From 10^21 on JavaScript writes them in exponent form (`JsText.NumberToString`). There they would only change the text of a key or hash, so only the feedback intensity, where the answer depends on it, uses `JsText.NumberToString`.
- In the content routes' POST body, `page` and `limit` are integers and ids are integers. A non-integer, string or NaN-valued page, limit or id is not modelled.
- `ComplaintContentDbRoute.Post`: a negative `skip`, which Prisma rejects with an error answered as 500, is not modelled; the database parameter answers every skip.
- `ComplaintClustering.CreateClusteredMarkers`: its ensures states the partition, seed and member properties and the cluster fields, but not that clusters are emitted cell by cell. The first-appearance order of cells is stated on the grid it builds (`ComplaintClustering.BuildGrid`).
- `ComplaintListRoute.CacheKeyOrderIndependent`: stated for queries without a repeated name. With a repeated name the stable sort keeps those pairs in query order, so the key can depend on it, as in the source.
- `TtlCache.Cache.Set`: it stores with the corrected eviction `Store`, which always deletes the oldest key. src/app/api/v2/complaints/route.ts:44-48 deletes it only when the key is truthy, which the list route's `""` key is not. The as-written store is `StoreAsWritten`, with the overflow it allows shown by `EmptyKeyBlocksEviction` and `EmptyKeyOverflowExample` (see Findings).
- `ComplaintListRoute.Get`: its miss path caches with the corrected `Store` through `TtlCache.Cache.Set`, so the model keeps at most 100 entries where the route as written grows past 100 once `""` is the oldest key. The content routes' keys are never `""`, so for them the two stores agree (`TtlCache.StoreAsWrittenAgrees`).
- `JsText.ToLower`: lowers ASCII letters only. JavaScript's `toLowerCase` applies full Unicode case mapping, which can change the length (`"İ"` becomes two characters). No non-ASCII character lowers to a letter of `csv` or `json`, so the format check decides the same either way.
- `ExportArguments.OutputFile`: its ensures covers only a non-empty given output. The default path is stated by `ExportArguments.EmptyOutputUsesDefault` and `ExportArguments.Timestamp`.

## Findings

| source | as written | input that shows it | evidently intended | confidence | as-written member | corrected member |
|---|---|---|---|---|---|---|
| src/app/api/v2/complaints/route.ts:44-48 | on overflow the oldest key is deleted only if it is truthy | a request without query parameters has the cache key `""`; once that entry is the oldest in a full cache, every new key grows the cache past 100 and `""` stays first | always evict the oldest key, keeping at most 100 entries | not executed | TtlCache.EmptyKeyBlocksEviction | TtlCache.StoreSpec |

What the finding means for the rest of the model:
- The same guard appears in both content routes (src/app/api/v2/complaints/content/route.ts:46-50 and src/app/api/complaints/content/route.ts:46-50). There it is harmless, because every content key starts with `page:` (`ComplaintContent.CacheKeyNonEmpty`).
- The list route's key is `""` exactly for a request without parameters (`ComplaintListRoute.EmptyKeyIffNoParams`).
- `TtlCache.StoreAsWritten` models the guard as written, and `TtlCache.StoreAsWrittenAgrees` shows it matches the corrected store whenever no key is `""`.
- The routes' `TtlCache.Cache.Set` uses the corrected `TtlCache.Store`.
