# Solvent Streets: verified model

A Dafny model of the calculating core of Solvent Streets: the forecast and solvency engine, the
condition spread, the game, the ring and clip geometry of water and boundary ingest, the ArcGIS paging
client, include resolution, the run and snapshot store, and the hexagon lattice. Verify it with
`dafny verify dfyconfig.toml`.

Reals are exact: every statement is about the algorithms over real numbers, not about floating point.
Where the program updates fields, slices, arrays or tables step by step, the model has classes and
methods with loops, each proved to compute a specification, and the properties are proved of that
specification; where it computes an expression, the model has functions. What those specifications
mean is stated again of the results themselves, in areas, conditions, dollars, coordinates, counts and
file contents: the members named `...InFull`, `...Iff` and `...By...` do so for each main operation.

| file | models |
|---|---|
| `RealMath.dfy` | sums and product facts used by the rest |
| `CostCurve.dfy` | `internal/forecast/cost.go`: anchors, interpolation, the memoised projector |
| `Scenario.dfy`, `ScenarioLaws.dfy` | `internal/forecast/scenario.go` with `pci.go` and `growth.go`: the yearly simulation; monotonicity in the budget, conservation, cycle scaling |
| `ScenarioRows.dfy` | what the returned rows say, cohort by cohort and year by year |
| `Solvency.dfy` | `internal/forecast/solvency.go`: break-even search and insolvency year |
| `ConditionSpread.dfy` | `internal/forecast/condition.go`: spreading cohorts and collapsing rows |
| `SpreadScale.dfy`, `CubicBeta.dfy` | when spread cohorts stay on the PCI scale, and an exact Beta that does |
| `PreventiveRuns.dfy` | two preventive-first runs out of order, the exception `solvency.go` warns of |
| `GameHeadline.dfy`, `GameTick.dfy`, `GameLaws.dfy` | `internal/game/game.go`: the insolvency headline, the board and its actions, and whole games |
| `GameOutcome.dfy` | what decides a game, and what a tick and a treatment do to it |
| `HeadlineOrder.dfy` | two budgets whose headlines are out of order, where the spread leaves the scale |
| `RingStitching.dfy` | `internal/ingest/rings.go`: both ring stitchers |
| `LandProbes.dfy`, `BoxClip.dfy` | `internal/ingest/rings.go` and `water.go`: probe counts and box clipping |
| `ArcGISPaging.dfy` | `internal/ingest/arcgis.go`: paging against servers of every modelled kind |
| `IncludeConfig.dfy`, `IncludeMerge.dfy` | `internal/config/include.go`, `provenance.go`: resolution layers and merging, on values |
| `IncludePlain.dfy`, `IncludeLoader.dfy` | include resolution as plain recursion, and the memoised loader on heap objects |
| `IncludeLaws.dfy`, `IncludeFields.dfy` | what a resolved city means in terms of the files that declare it, and field by field |
| `IncludeReach.dfy` | when resolution succeeds, and what it reads, in terms of chains of includes |
| `SnapshotStore.dfy`, `StoreCommands.dfy` | `internal/db/snapshots.go`, `draft.go`: the transition system, and the tables with their methods |
| `HexLattice.dfy` | `internal/geo/hexgrid.go`: the lattice ranges and the tiling |

## Parameters

- The exponential is any function that lies strictly between 0 and 1 on negative arguments; tick
  splitting also asks that exp(a + b) = exp(a) * exp(b).
- The interior of the regularized incomplete beta function is an arbitrary function; its two end
  branches are the code's, and all that keeping area and mean condition needs. The results about the
  PCI scale ask for facts of a Beta distribution: that it and its first moment rise, and that over any
  interval the first moment is at most the upper end for each unit of probability. `CubicBeta.dfy`
  proves them of the exact Beta(3, 1). The quantiles are the code's 100 halvings throughout.
- Budget monotonicity and break-even correctness ask for tiers with positive prices that do not fall
  as PCI falls, initial PCI in [0, 100] and areas of at least zero. They allow any growth rate and any
  budget. The default tiers are proved to qualify; so is a spread network exactly when its bands stay
  on the scale (`SpreadScale.SpreadIsSoundIff`).
- A file system is a map from absolute paths to parsed files; hashes are arbitrary functions that
  never return an empty string. Include paths are taken as already made absolute.
- A table row's contents are strings; each database transaction is one atomic step; ids come from
  counters that never go back.
- An ArcGIS server serves at least one row when rows remain, always in the same order.
- The FNV jitter of a starting board is an arbitrary function of the hex id.
- sqrt(3) is a positive parameter. The tiling holds for any height-to-edge ratio; that the hexagons
  are regular is proved from its square being 3.

## Where the code and its comments disagree

The model follows the code.

- `internal/db/snapshots.go` says a commit never creates an empty snapshot. A commit that only drops
  the last remaining parts does: `SnapshotStore.EmptySnapshotIff` gives the exact condition and
  `SnapshotStore.DroppingTheLastPartMintsEmpty` the three steps.
- `internal/game/game.go:681-683` calls a true out-of-funds verdict proof that no treatment is
  affordable anywhere. It ranges over open hexes only: `GameLaws.OutOfFundsIsNotFinal` is a board on
  which a closed hex can still be treated, `GameLaws.OutOfFundsIsFinalIff` the exact condition.
- `internal/ingest/arcgis.go:266-267` says an offset-ignoring layer without object ids always runs
  into the page cap. When its first page carries no flag and a later one a false flag, it succeeds
  with every row twice: `ArcGISPaging.FlaglessFirstPageDuplicates`. Where only some rows
  carry ids, a row can be lost without an error, on servers of either kind:
  `ArcGISPaging.MixedIdsCollide`. `ArcGISPaging.FetchAll` gives the exact condition for a complete
  result, for all of these layers.
- `internal/forecast/condition.go:20-24` and `:145-147` say that near the ends the spread compresses
  with no pile-up, and that bisection is robust. At an accepted mean close to 100 the quantiles saturate
  against 1 and the last band leaves the PCI scale: `SpreadScale.LastBandLeavesIff` gives the exact
  condition, `SpreadScale.NearPerfectLeavesScale` the case of 99.5.
- `internal/forecast/solvency.go:64-84` says worst-first runs under the default tiers are ordered by
  budget. Every caller spreads its cohorts first; where a band is off the scale the order breaks
  (`HeadlineOrder.HeadlinesOutOfOrder`, at 99.999), and where all bands are on it the order holds
  (`SpreadScale.SpreadMoreBudgetNeverWorse`, `GameHeadline.LargerBudgetLaterHeadline`).
- `internal/config/include.go:513-518` says a growth rate of zero is indistinguishable from an unset
  one in the union; the code decides by presence, and so does the model.
- `internal/forecast/condition.go:86-90` calls collapsing idempotent with equivalent values; a class
  whose area is zero loses its end PCI (`ConditionSpread.UniqueIsKept`).

## Model

| member | source | states |
|---|---|---|
| `CostCurve.SortSorts` | internal/forecast/cost.go:40-57 | the anchors built from tiers, in any order, come out sorted by descending PCI and are a permutation of the input |
| `CostCurve.SortedCostsRise` | internal/forecast/cost.go:40-57 | prices that do not fall as PCI falls, in whatever order the tiers are listed, give sorted anchors whose costs rise along the list |
| `CostCurve.InterpolateCost` | internal/forecast/cost.go:61-87 | the scan for a bracketing pair, with its two flat ends and its zero-span case, computes the piecewise-linear curve |
| `CostCurve.CostBounds` | internal/forecast/cost.go:61-87 | the price always lies between the first and last anchor's cost |
| `CostCurve.CostNonIncreasing` | internal/forecast/cost.go:61-87 | over sorted anchors with rising costs, the price never rises with PCI, across segments and clamps |
| `CostCurve.CurveMonotoneIff` | internal/forecast/cost.go:61-87 | with distinct midpoints the curve is non-increasing in PCI if and only if the anchor costs are ordered |
| `CostCurve.CurveInFull` | internal/forecast/cost.go:61-87 | over sorted anchors the price is flat beyond the two ends, and between two neighbours it is on the straight line through them |
| `CostCurve.SortIsStable` | internal/forecast/cost.go:52-56 | anchors with the same midpoint keep their order |
| `CostCurve.AnchorsInFull` | internal/forecast/cost.go:40-57 | there is one anchor for each tier, at the middle of its band cut at 100 and at its price, in stable order of descending PCI |
| `CostCurve.OverheadMultiplies` | internal/forecast/cost.go:133-161 | an overhead multiplies the price at every PCI; none given is 1 |
| `CostCurve.SoundTiersGiveSoundCurve` | internal/forecast/cost.go:133-161 | tiers with positive prices that do not fall as PCI falls give a sound curve at any overhead; an empty list falls back to defaults that are sound too |
| `CostCurve.DefaultCurve` | internal/forecast/cost.go:20-24 | the default tiers' anchors: 5 dollars at 85, 50 at 55, 150 at 20; no tiers at all give the same |
| `CostCurve.TieredCostProjector.constructor` | internal/forecast/cost.go:92-127 | a new projector has built nothing yet |
| `CostCurve.TieredCostProjector.ResolvedAnchors` | internal/forecast/cost.go:146-161 | the memoised anchors are the sorted tier midpoints (else the defaults) with the overhead folded in once, on the first call and on every later one |
| `CostCurve.TieredCostProjector.ProjectCost` | internal/forecast/cost.go:163-165 | area times the curve's price |
| `CostCurve.TierForPCIIn` | internal/forecast/cost.go:170-177 | the scan returns the label of the first band that contains the PCI, or the empty label |
| `CostCurve.NearestTierLabel` | internal/forecast/cost.go:208-227 | the scan returns the first containing band's label, or the first nearest tier's |
| `CostCurve.TieredCostProjector.TierForPCI` | internal/forecast/cost.go:190-204 | the two scans together give the specified label, defaults included |
| `CostCurve.TierLabelIsNearest` | internal/forecast/cost.go:187-227 | a label is that of a tier at the least distance from the PCI, and of the first whose band contains it where one does |
| `Scenario.ResolveCycleYears` | internal/forecast/scenario.go:125-130 | the resolved cycle is always positive |
| `Scenario.Simulator.constructor` | internal/forecast/scenario.go:90-108 | the initial slices hold each cohort's initial PCI and area fraction |
| `Scenario.Simulator.ApplyCohortSpend` | internal/forecast/scenario.go:166-228 | one cohort's update in place: decay, partial recovery, full funding, or surplus capped at twice the need, and no other cohort changes |
| `Scenario.Simulator.FundCohort` | internal/forecast/scenario.go:147-164 | one iteration of the funding loop: the cohort's share of the spend, its condition, its spend and its deficit |
| `Scenario.Simulator.Distribute` | internal/forecast/scenario.go:147-164 | the funding loop leaves every cohort as the year's specification says and returns the total actually spent |
| `Scenario.Simulator.PriceYear` | internal/forecast/scenario.go:275-285 | the pricing loop fills the decayed conditions and needs, and returns their total |
| `Scenario.Simulator.BlendedPCI` | internal/forecast/scenario.go:230-236 | the area-weighted condition reported for the year |
| `Scenario.Simulator.RunYear` | internal/forecast/scenario.go:275-322 | one iteration of the year loop takes the run's state from year i to year i + 1 and emits that year's row, its cost tier label included |
| `Scenario.Simulator.Summaries` | internal/forecast/scenario.go:339-353 | the final row of each cohort: condition, final area, and accumulated spend and deficit |
| `Scenario.Simulate` | internal/forecast/scenario.go:241-356 | the loops over mutable slices compute exactly the year-by-year transition system, for any cohorts, growth, cycle, strategy and budget |
| `ScenarioLaws.ApplySpendByRatio` | internal/forecast/scenario.go:166-228 | under proportional funding a cohort's outcome depends on its spend only through the ratio of spend to need, the same ratio for all |
| `ScenarioLaws.ByRatioMonotone` | internal/forecast/scenario.go:166-228 | worst-first: a better condition and a larger ratio never end worse, across the jumps at zero, at full funding, at the surplus cap and at PCI 100 |
| `ScenarioLaws.NeedFalls` | internal/forecast/scenario.go:278-285 | need never rises with condition, and is zero in one state exactly when it is zero in the other |
| `ScenarioLaws.ProportionalYear` | internal/forecast/scenario.go:147-164 | every cohort in need is funded at the ratio of planned spend to total need, and one without need only decays |
| `ScenarioLaws.YearMonotone` | internal/forecast/scenario.go:147-228 | one year keeps two worst-first states ordered in every cohort's need and condition |
| `ScenarioLaws.UnmetFalls` | internal/forecast/scenario.go:147-164 | one year under the larger budget leaves no cohort with more unmet need |
| `ScenarioLaws.MoreBudgetNeverWorse` | internal/forecast/solvency.go:64-84 | for two worst-first runs with budgets B1 <= B2, at every year every cohort has PCI2 >= PCI1, need2 <= need1 and accumulated deficit2 <= deficit1, and total need and backlog are ordered alike |
| `ScenarioLaws.PreventiveOvershoots` | internal/forecast/scenario.go:166-228 | preventive-first: a partly funded cohort ends above its fully funded self exactly when the funded ratio lies above 5/6 and below 1 |
| `PreventiveRuns.PreventiveRunsOutOfOrder` | internal/forecast/solvency.go:77-85 | two preventive-first runs of one growing cohort under the default tiers, out of order: the larger budget leaves the worse condition after the first year and the larger backlog after the second |
| `ScenarioLaws.UnmetIsShortfall` | internal/forecast/scenario.go:147-164 | the cohorts' unmet needs sum to exactly what the year adds to the deferred backlog, in every strategy |
| `ScenarioLaws.Conservation` | internal/forecast/scenario.go:305-353 | over a whole run the cohorts' spends sum to the yearly spends and their deficits to the deferred backlog |
| `ScenarioLaws.CycleScaling` | internal/forecast/solvency.go:55-62 | cycle N with budget B/N runs through the same conditions as cycle 1 with budget B, with every dollar divided by N, in every strategy |
| `ScenarioRows.RowsByOwnArea` | internal/forecast/scenario.go:90-108 | in the returned rows, where the network has an area: a year's need is the sum of each cohort's own grown area at the price of its faded condition over the cycle; its PCI times the starting area is the sum of area times condition; its area and the final areas are the cohorts' own, grown |
| `ScenarioRows.RowsWithoutArea` | internal/forecast/scenario.go:97-101 | a network without area reports condition 0, need 0 and no final area |
| `ScenarioRows.CohortYear` | internal/forecast/scenario.go:147-228 | between the rows of i and of i + 1 years a cohort fades, wins back 0.8 or 1.2 of the funded part of its decay, holds, or gains on its headroom up to twice its need, by the year's ratio of budget to need; what it gets and lacks are that ratio's parts of its own need |
| `ScenarioRows.YearTotals` | internal/forecast/scenario.go:287-322 | a row's spend is the budget, at least 0 and at most twice the need, and its backlog is the one before plus what the budget misses |
| `ScenarioRows.MoreBudgetBetterRows` | internal/forecast/solvency.go:64-84 | in the rows of two worst-first runs the larger budget has no lower PCI, no higher need or backlog, and no worse cohort at the end |
| `Solvency.FourteenHalvings` | internal/forecast/solvency.go:117-128 | the bisection over the reals has reached its stopping width after 14 halvings |
| `Solvency.FinalBacklogOf` | internal/forecast/solvency.go:106-109 | the probe run at a budget returns the backlog of that run's last row |
| `Solvency.PeakOf` | internal/forecast/solvency.go:94-103 | the upper bound is the peak yearly need of the do-nothing run |
| `Solvency.BisectBudget` | internal/forecast/solvency.go:104-128 | the bisection loop computes the specified bisection |
| `Solvency.BreakEvenBudget` | internal/forecast/solvency.go:86-129 | the whole search, with its early exits, computes the break-even specification |
| `Solvency.NothingIsUnfunded` | internal/forecast/scenario.go:288-303 | a do-nothing run is the unfunded worst-first run, year for year |
| `Solvency.PeakLeavesNoBacklog` | internal/forecast/solvency.go:64-75 | a budget of at least every do-nothing year's need funds every year in full, so its backlog is zero at every year |
| `Solvency.BisectInvariant` | internal/forecast/solvency.go:115-128 | the result meets the tolerance, and a budget within the stopping width below it does not |
| `Solvency.BreakEvenMeetsTolerance` | internal/forecast/solvency.go:86-129 | for either funded strategy the last row of the run at the result has a backlog of at most a thousandth of the do-nothing run's first need; the result is at most any bound on the do-nothing needs, and unless it is zero some budget within a ten-thousandth of that below it fails |
| `Solvency.BreakEvenIsSmallest` | internal/forecast/solvency.go:86-129 | worst-first: in the returned rows, every budget from the result up meets the tolerance, and every budget that meets it exceeds the result less a ten-thousandth of any bound on the do-nothing needs |
| `Solvency.BreakEvenScales` | internal/forecast/solvency.go:55-62 | the break-even budget of cycle N is that of cycle 1 divided by N, through peak, tolerance and every bisection step |
| `Solvency.InsolvencyYear` | internal/forecast/solvency.go:39-53 | the scan computes the first crossing of the returned rows |
| `Solvency.BacklogNeverShrinks` | internal/forecast/scenario.go:305-307 | the deferred backlog never falls from one year to any later one |
| `Solvency.InsolvencyIsFirstAndFinal` | internal/forecast/solvency.go:39-53 | the reported year is the first at which the backlog reaches one network's cost, every later year stays there, and none is reported exactly when the horizon ends below it |
| `Solvency.InsolvencyByRows` | internal/forecast/solvency.go:39-53 | in the returned rows: a year is reported if and only if some row's backlog reaches the first row's need times the cycle, and it is then the first, with every later row's backlog there too |
| `Solvency.MoreBudgetInsolvesNoEarlier` | internal/forecast/solvency.go:39-53 | if the larger worst-first budget becomes insolvent, so does the smaller, no later |
| `Solvency.IdleWorsens` | internal/forecast/scenario.go:288-303 | left alone, no cohort is ever in better condition than at the start |
| `Solvency.IdleNeedGrows` | internal/forecast/scenario.go:278-285 | with non-negative growth, no year of a do-nothing run needs less than the first |
| `Solvency.DoingNothingIsInsolvent` | internal/forecast/solvency.go:39-53 | with non-negative growth, a do-nothing run is insolvent by year ceil(N) whenever the horizon reaches it |
| `ConditionSpread.BisectQuantile` | internal/forecast/condition.go:148-165 | the bisection loop computes the hundredfold-halved bracket's midpoint |
| `ConditionSpread.BracketStraddles` | internal/forecast/condition.go:148-165 | the bracket always straddles the probability, lies in [0, 1] and halves each time |
| `ConditionSpread.QuantilesRise` | internal/forecast/condition.go:148-165 | quantiles rise with the probability and stay in [0, 1], whatever the distribution |
| `ConditionSpread.BetaBandMeans` | internal/forecast/condition.go:127-143 | the two loops compute each band's conditional mean |
| `ConditionSpread.MeansSum` | internal/forecast/condition.go:122-143 | the band means telescope to k times the mean, from the two end values of the incomplete beta function alone |
| `ConditionSpread.MeansNotNegative` | internal/forecast/condition.go:127-143 | with a rising first-moment distribution no band mean is negative |
| `ConditionSpread.ApplyConditionSpread` | internal/forecast/condition.go:54-84 | the loops compute the specified spread, degenerate means passing through |
| `SpreadScale.SpreadInFull` | internal/forecast/condition.go:43-84 | a mean within a ten-thousandth of 0 or 100 stays; any other cohort becomes nine of its class and rate, each with a ninth of its area, cut at the ninths of a Beta of concentration 4 with its mean, each at nine times its band's share of the mean |
| `ConditionSpread.SpreadKeeps` | internal/forecast/condition.go:43-52 | spreading keeps the area and the area-weighted PCI of the network, and of every choice of classes and decay rates |
| `SpreadScale.OneOnScaleIff` | internal/forecast/condition.go:54-84 | where the first moment rises, a cohort's bands are all in [0, 100] if and only if no band contributes more than a ninth to the mean |
| `SpreadScale.SpreadIsSoundIff` | internal/forecast/condition.go:43-84 | a spread network meets what the budget theorems ask if and only if every cohort's bands fit |
| `SpreadScale.SpreadMoreBudgetNeverWorse` | internal/forecast/condition.go:43-84 | where they fit, more budget is never worse on the spread network either |
| `SpreadScale.NearLevel` | internal/forecast/condition.go:145-165 | after all halvings each bound's probability is within d of its level, where the distribution rises by at most d over one last width |
| `SpreadScale.BetaFits` | internal/forecast/condition.go:54-84 | a rising distribution whose first moment is bounded as a Beta's is, spreads on the scale when its last bound leaves room for the bisection's error and its last band's share is at most a ninth |
| `CubicBeta.ThreeQuartersFits` | internal/forecast/condition.go:54-84 | the exact Beta(3, 1) of a mean of 75 meets all of that under the code's bisection, so its bands are on the scale |
| `SpreadScale.BracketSaturates` | internal/forecast/condition.go:148-165 | where the distribution has not reached p one last width below 1, every halving moves up and the bisection ends against 1 |
| `SpreadScale.LastBandLeavesIff` | internal/forecast/condition.go:54-84 | the last band exceeds 100 if and only if its share of the mean exceeds a ninth; where the last bound is saturated, that share is the mean times what the first moment lacks half a width below 1 |
| `SpreadScale.NearPerfectLeavesScale` | internal/forecast/condition.go:54-84 | an initial PCI of 99.5 at which the last band exceeds 100 |
| `SpreadScale.AllBandsSaturate` | internal/forecast/condition.go:54-84 | closer to 100 all bounds coincide: seven bands at condition 0, and the first and the last share the mean |
| `ConditionSpread.AggregateCohortSummariesByClass` | internal/forecast/condition.go:91-120 | the loop over an index map computes the specified rows, in first-seen order |
| `ConditionSpread.CollapseKeeps` | internal/forecast/condition.go:86-120 | collapsing gives one row per class and keeps every class's area, spend, deficit and area-weighted PCI |
| `ConditionSpread.CollapsedInOrder` | internal/forecast/condition.go:86-90 | collapsed rows come in the order in which their classes are first seen, with the decay rate of the first row of the class |
| `ConditionSpread.UniqueIsKept` | internal/forecast/condition.go:86-90 | rows already unique by class come back as they were, so collapsing twice is collapsing once (a class without area gets condition 0) |
| `ConditionSpread.CollapsedRunConserves` | internal/forecast/scenario.go:305-353 | the displayed rows of a whole run account for every dollar spent in every year and for the whole deferred backlog |
| `RingStitching.EdgesOfJoin` | internal/ingest/rings.go:146-167 | splicing a way onto a chain adds exactly the way's undirected edges, the shared vertex counted once |
| `RingStitching.EdgesOfReverse` | internal/ingest/rings.go:102-132 | reversing a way keeps its undirected edges |
| `RingStitching.ExtendRing` | internal/ingest/rings.go:146-167 | takes the first unused way that touches the tail, in either direction, and marks only it; failing means no unused way touches the tail |
| `RingStitching.GrowRing` | internal/ingest/rings.go:102-132 | the same at both ends, the tail tried first; failing means no unused way touches either end |
| `RingStitching.GrowKeepsEven` | internal/ingest/rings.go:18-47 | splicing keeps the parity of every vertex's unused ends together with the open chain's own |
| `RingStitching.OpenTailIsTouched` | internal/ingest/rings.go:18-47 | in an even graph an open chain's tail always has an unused way |
| `RingStitching.TailChain` | internal/ingest/rings.go:21-37 | the growth loop of the one-ended stitcher: the chain's edges are those of the ways it took, each taken once |
| `RingStitching.BidiChain` | internal/ingest/rings.go:65-80 | the same for the two-ended stitcher |
| `RingStitching.StitchRings` | internal/ingest/rings.go:18-47 | the rings and dropped ids are accounted for by chains: every way of at least two vertices is in exactly one, each chain has exactly its ways' undirected edges and is returned when it has four vertices and ends where it began, or has all its ways dropped; even endpoints leave no chain open and drop only ways of closed chains under four vertices; no later chain touches an open chain's tail |
| `RingStitching.SnapShut` | internal/ingest/rings.go:82-85 | an open chain of at least four vertices whose ends are within the snapping distance is closed |
| `RingStitching.SnapAddsOneEdge` | internal/ingest/rings.go:49-96 | snapping adds exactly one undirected edge, and only to an open chain, and the result is a closed ring |
| `RingStitching.KeptSorts` | internal/ingest/rings.go:39-44 | the rings are those of exactly the chains of four vertices that end where they began, or with a snap nearly so in coordinates, and the dropped ids those of the ways of the others |
| `RingStitching.SnapIsShort` | internal/ingest/rings.go:134-141 | a snapped edge is at most a thousandth of a degree long in either direction |
| `RingStitching.StitchRingsBidi` | internal/ingest/rings.go:62-96 | as for the one-ended stitcher, with both ends of an open chain exhausted, and with the chains of four vertices whose end differences satisfy dx*dx + dy*dy <= 0.000001 returned with a closing edge |
| `RingStitching.RingOrDropped` | internal/ingest/rings.go:18-96 | a chain is returned as a ring, or every one of its ways is reported dropped |
| `RingStitching.EvenDropsOnlyTinyChains` | internal/ingest/rings.go:18-96 | when no chain is open, only ways of closed chains under four vertices are dropped; both stitchers' results are explained with it |
| `LandProbes.PointInRing` | internal/ingest/rings.go:176-190 | the toggling loop computes the parity of the edges crossed to the right of the point |
| `LandProbes.CrossesIff` | internal/ingest/rings.go:176-190 | an edge counts when its ends lie on different sides of the point's height and it meets that height at a point further right |
| `LandProbes.InsideIff` | internal/ingest/rings.go:176-190 | a point is inside a ring of at least four vertices when an odd number of the ring's edges count |
| `LandProbes.BoxOf` | internal/ingest/water.go:833-851 | the box bounds every vertex and each of its sides is reached by one |
| `LandProbes.CrossingBetween` | internal/ingest/rings.go:176-190 | an edge's intersection with a height it straddles lies between its ends' x |
| `LandProbes.StraddlesEvenly` | internal/ingest/rings.go:176-190 | an even number of a ring's edges straddle any height |
| `LandProbes.OutsideBoxNotInside` | internal/ingest/water.go:780-798 | a point outside a ring's box is never inside the ring |
| `LandProbes.DisjointBoxes` | internal/ingest/water.go:780-830 | a ring whose box misses the probes' box holds none of them |
| `LandProbes.LandProbeIndex.constructor` | internal/ingest/water.go:751-773 | the index keeps the probes and their box |
| `LandProbes.LandProbeIndex.RingHits` | internal/ingest/water.go:780-798 | with both box rejections, the hits are the number of probes inside the ring |
| `LandProbes.LandProbeIndex.PolygonHits` | internal/ingest/water.go:805-830 | with both box rejections, the hits are the number of probes inside the outer ring and inside no hole |
| `BoxClip.ClipEdge` | internal/ingest/water.go:955-976 | narrows the parameter window by one side exactly, or proves it empty |
| `BoxClip.LiangBarsky` | internal/ingest/water.go:917-950 | succeeds if and only if the segment meets the closed box; [t0, t1] is exactly the in-box parameters; a moved endpoint lies on a box edge |
| `BoxClip.ClippedExactly` | internal/ingest/water.go:917-950 | the window left by the four sides is exactly the in-box parameters, with its moved ends on the box |
| `BoxClip.Continues` | internal/ingest/water.go:872-912 | a piece starts where the open sub-chain ends; where none is open it starts at the first point or enters through the box |
| `BoxClip.ClipChainToBBox` | internal/ingest/water.go:872-912 | the sub-chains, as point sets, are exactly the part of the polyline that lies in the closed box; every edge is the whole in-box part of one segment, consecutive edges come from consecutive segments, every segment that meets the box is represented once, and a sub-chain begins at the polyline's first point or on the box and stops at its last or on the box |
| `BoxClip.EmittedIsInBoxPart` | internal/ingest/water.go:872-912 | a segment's point at a parameter lies in the closed box if and only if an emitted piece of that segment holds the parameter |
| `BoxClip.RunsAreTheBoxPart` | internal/ingest/water.go:872-912 | a point is on a sub-chain if and only if it is on the polyline and in the closed box |
| `BoxClip.AtIs` | internal/ingest/water.go:917-950 | a point of the polyline divides the stretch between two neighbouring vertices, coordinate by coordinate |
| `IncludeMerge.UnionIsFirstSaid` | internal/config/include.go:519-587 | the union keeps each field's first statement, growth_rate by presence, and reports exactly the disagreements |
| `IncludeMerge.EffectiveSays` | internal/config/include.go:646-661 | a city's block over its file's is itself a first-statement union, and is omitted exactly when neither states anything |
| `IncludeMerge.FlattenedResolvesTheSame` | internal/config/include.go:646-661 | a flattened block under a parent that states nothing resolves, through env and defaults, to what the declaring file resolves |
| `IncludePlain.MoreFuel` | internal/config/include.go:150-216 | a resolution, once reached, does not depend on how much nesting is allowed |
| `IncludePlain.ResolvesUnique` | internal/config/include.go:150-216 | plain recursion has at most one result |
| `IncludePlain.IncludedIsLower` | internal/config/include.go:150-216 | an included file needs strictly less nesting than its parent |
| `IncludePlain.ResolvedIsAcyclic` | internal/config/include.go:150-216 | when a root resolves, no chain of includes from it meets a file twice |
| `IncludePlain.PromisedFold` | internal/config/include.go:224-247 | where plain recursion fits under the depth cap, no merge fails |
| `IncludeReach.MergeFailsIff` | internal/config/include.go:319-325 | merging an include fails if and only if it gives a slug that the parent already holds another name |
| `IncludeReach.ResolvedHeld` | internal/config/include.go:312-364 | a resolved config holds a slug under exactly the names that the files reached from it by includes give it |
| `IncludeReach.ResolvedHasOneName` | internal/config/include.go:286-287 | all declarations of a slug in reach of a file that resolves, its own included, carry one name |
| `IncludeReach.ResolvesIff` | internal/config/include.go:150-247 | plain recursion n files deep succeeds if and only if every chain of includes from the root is at most n files long and reaches readable files whose includes have paths, and no two of the files give one slug two names |
| `IncludeReach.HashedAreReached` | internal/config/include.go:132-135 | the bytes that a content hash covers are the file's own, first, and those of exactly the files reached from it |
| `IncludeLoader.UnionField` | internal/config/include.go:556-565 | one field's union in place: backfill, agreement, or a reported conflict |
| `IncludeLoader.Block.Union` | internal/config/include.go:519-549 | a forecast block updated in place becomes the union and reports the conflicts, in order |
| `IncludeLoader.Block.UnionGrowthRate` | internal/config/include.go:577-587 | growth_rate by presence, so a stated zero wins and is kept |
| `IncludeLoader.LoadedConfig.UnionGrid` | internal/config/include.go:482-499 | the edge and area move as a pair, and only onto a city that states neither |
| `IncludeLoader.LoadedConfig.UnionBlock` | internal/config/include.go:438-453 | a city without a block gets a fresh one; otherwise its own block is edited in place |
| `IncludeLoader.LoadedConfig.MergeExistingCity` | internal/config/include.go:379-417 | the edit in place gives the specified merge of that city, every other city unchanged, and the conflicts |
| `IncludeLoader.LoadedConfig.AppendCity` | internal/config/include.go:335-361 | a new city gets its flattened calibration in a block of its own, and its stamp if unset |
| `IncludeLoader.MergeIncludedCities` | internal/config/include.go:312-364 | folding a child into a parent in place is the specified fold, fails exactly when the child gives a slug that the parent holds another name, and leaves the child as it was |
| `IncludeLoader.Loader.constructor` | internal/config/config.go:725-726 | a load starts with an empty cache, no ancestors and no warnings |
| `IncludeLoader.Loader.LoadResolved` | internal/config/include.go:150-216 | success gives plain recursion's config and blobs, cache or no cache; it succeeds wherever plain recursion fits under the depth cap; no file is parsed twice; each file's warnings are recorded once; no earlier object, a cached child's cities and blocks among them, changes |
| `IncludeLoader.Loader.ResolveOneInclude` | internal/config/include.go:224-247 | one include advances the parent by one step of plain recursion |
| `IncludeLoader.Load` | internal/config/config.go:720-760 | a loaded root is plain recursion's result, its includes are acyclic, and its identity is its config id, else its path's hash, with the hash of all bytes in reach; what loads is readable throughout, gives no slug two names and declares a city, and all such roots load whose includes nest at most 33 files deep |
| `IncludeLaws.CombineAssociative` | internal/config/include.go:378-499 | folding declarations of a city is associative, grid pair and source identity included |
| `IncludeLaws.ResolvedMeans` | internal/config/include.go:278-364 | at any nesting a slug resolves to a city exactly when some reachable file declares it, and the city says exactly the fold of those declarations in depth-first order |
| `IncludeLaws.EachFieldIsFirstStated` | internal/config/include.go:288-310 | each of the eight forecast fields of the fold is the first one stated, in order |
| `IncludeFields.DeclarationSays` | internal/config/include.go:621-661 | what a declaration counts as saying: its own name and source, and for each half of the grid and each forecast field the city's value where it states one, else its file's |
| `IncludeFields.EdgePrecedence` | internal/config/provenance.go:120-180 | the hex edge is the environment's, else the city's, else the file's, else 100; the min area likewise without an environment |
| `IncludeFields.ForecastPrecedence` | internal/config/provenance.go:200-350 | each field of a resolved forecast is the environment's where it has one, else the city's, else the file's, else the default |
| `IncludeFields.IncludedFields` | internal/config/include.go:288-310 | each field of an included city resolves to the environment's, else to the first one stated in depth-first declaration order, else to the default |
| `IncludeLaws.GridFromOneFile` | internal/config/include.go:455-499 | grid edge, min area, source id, source hash and source edge all come from one declaration: the first that states a grid, else the first |
| `IncludeLaws.IncludedCityMeans` | internal/config/include.go:312-364 | the parent's own city wins wholesale; an included city says the fold, and the union resolves for it exactly the edge its source data was stored under |
| `IncludeLaws.LoneDeclarationResolvesTheSame` | internal/config/provenance.go:144-207 | a city that one file declares resolves, at any nesting, to the hex edge, min area and forecast that file resolves by itself |
| `IncludeLaws.ConflictsAreClashes` | internal/config/include.go:419-565 | a merge reports exactly the stated values it drops, grid fields first, in order |
| `IncludeLaws.WarningsAreDrops` | internal/config/include.go:298-308 | the warnings about a slug are, in order, one for each include that states something an earlier one states differently: the first include that contributed the slug as winner, this include as loser, and exactly the fields dropped; a backfill and the parent's own city are silent |
| `SnapshotStore.EmptyIsGood` | internal/db/snapshots.go:265-349 | the empty tables satisfy the store's invariant |
| `SnapshotStore.StepKeepsInv` | internal/db/snapshots.go:265-349 | every transaction keeps: each manifest entry names an existing run of the same city, with producer = part and hash = the snapshot's hash |
| `SnapshotStore.RunKeepsInv` | internal/db/snapshots.go:265-349 | so does every interleaving of transactions and clock steps |
| `SnapshotStore.StepKeepsManifest` | internal/db/snapshots.go:214-226 | no step but deleting a snapshot changes its manifest or its runs |
| `SnapshotStore.PinnedViewIsStable` | internal/db/snapshots.go:45-49 | a reader pinned to a snapshot sees the same rows after any interleaving that does not delete it |
| `SnapshotStore.PreviewMatchesCommit` | internal/db/snapshots.go:55-70 | a preview of parts reads exactly what a reader by config hash sees after they are committed, in the changed, no-op and no-snapshot cases |
| `SnapshotStore.NewestAfterCommit` | internal/db/snapshots.go:265-301 | after a commit the newest snapshot under the hash is the one the commit returned, holding the base overlaid with the parts |
| `SnapshotStore.CommitInFull` | internal/db/snapshots.go:265-349 | a commit without a hash, or with a part whose run is missing, of another city, made for another part or under another hash, writes nothing; any other overlays the parts on the latest manifest of the city and hash, run 0 leaving a part out, and mints it where that is a change |
| `SnapshotStore.VisibleIff` | internal/db/snapshots.go:75-158 | a reader sees exactly the rows of its city's runs in the manifest it reads: the pinned snapshot's if the city owns it, else the latest for its hash, with its own parts overlaid |
| `SnapshotStore.EmptySnapshotIff` | internal/db/snapshots.go:265-301 | a commit mints an empty snapshot if and only if it drops every part of a non-empty base and adds none |
| `SnapshotStore.DroppingTheLastPartMintsEmpty` | internal/db/snapshots.go:259-283 | from a fresh store: a run, its commit and a commit that drops it leave an empty second snapshot |
| `SnapshotStore.GoneForGood` | internal/db/snapshots.go:190-209 | a run that is gone never comes back: ids are not reused |
| `SnapshotStore.OnlyTheseDestroy` | internal/db/snapshots.go:421-498 | a run disappears only when nothing references it, by its own discard, by deleting a snapshot that held it, or by a sweep after its grace period |
| `SnapshotStore.RemovedIff` | internal/db/snapshots.go:421-570 | a step removes a run if and only if, for its own city, it discards it unheld, sweeps it unheld and more than a day old, or deletes the only snapshot that holds it; a run that stays changes only by a row written to it |
| `SnapshotStore.YoungRunsSurvive` | internal/db/snapshots.go:552-570 | a run within its grace period survives any interleaving that neither discards it nor deletes the last snapshot of its city that holds it, whatever else is deleted |
| `SnapshotStore.DraftSettles` | internal/db/draft.go:69-79 | after a commit and its discards, interleaved with anything that does not delete the new snapshot, every run the draft created is in that manifest or gone |
| `StoreCommands.Database.NewestSnapshotID` | internal/db/snapshots.go:91-106 | the scan finds the largest snapshot id of the city and hash, or 0 |
| `StoreCommands.Database.ApplyParts` | internal/db/snapshots.go:135-143 | the in-place edit is the overlay: run 0 drops a part, any other replaces it |
| `StoreCommands.Database.ViewRunIDs` | internal/db/snapshots.go:147-158 | the runs a view reads, by pinned snapshot, config hash or preview |
| `StoreCommands.Database.CreateRun` | internal/db/snapshots.go:190-209 | an empty producer is refused; otherwise a fresh run, and the step of the transition system |
| `StoreCommands.Database.DiscardRun` | internal/db/snapshots.go:214-226 | refused exactly when a snapshot references the run |
| `StoreCommands.Database.CheckCommitRuns` | internal/db/snapshots.go:326-349 | accepts exactly when every named run exists for the city, producer and hash |
| `StoreCommands.Database.CommitSnapshot` | internal/db/snapshots.go:265-301 | takes exactly the commit step and returns its snapshot, or refuses and changes nothing |
| `StoreCommands.Database.DeleteSnapshot` | internal/db/snapshots.go:421-457 | an id that is not positive is an error; otherwise exactly the delete step: the snapshot if the city owns it, and those of its runs no other snapshot holds |
| `StoreCommands.Database.UnreferencedRuns` | internal/db/snapshots.go:460-472 | exactly the given runs that no manifest names |
| `StoreCommands.Database.GCSweep` | internal/db/snapshots.go:607-634 | takes exactly the sweep step and counts what it deleted |
| `StoreCommands.Draft.NewRun` | internal/db/draft.go:41-48 | a created run is recorded in the draft; a refused one is not |
| `StoreCommands.Draft.Put` | internal/db/draft.go:50-51 | places a run under its part |
| `StoreCommands.Draft.Drop` | internal/db/draft.go:53-55 | marks a part to be dropped |
| `StoreCommands.Draft.UnusedRuns` | internal/db/draft.go:89-101 | exactly the created runs that no part uses |
| `StoreCommands.Draft.DiscardAll` | internal/db/draft.go:103-111 | tries every run, removes exactly the unreferenced ones, and reports whether all went |
| `StoreCommands.Draft.Commit` | internal/db/draft.go:69-79 | a refused commit changes neither store nor draft; an accepted one empties the draft, and each run it created is in the manifest, held by another, or gone; no other run is touched |
| `StoreCommands.Draft.Discard` | internal/db/draft.go:83-87 | removes exactly the draft's unreferenced runs and empties it |
| `ArcGISPaging.RepeatedMeansWhole` | internal/ingest/arcgis.go:411-476 | a repeated page is accepted only when no cap, the server's or the client's, can have cut it |
| `ArcGISPaging.AppendUniqueRows` | internal/ingest/arcgis.go:481-490 | appends in order the rows whose id is new, over all pages |
| `ArcGISPaging.UniqueInFull` | internal/ingest/arcgis.go:481-490 | what a page adds are its rows whose id no earlier row of any page has, in order |
| `ArcGISPaging.RowsFromPage` | internal/ingest/arcgis.go:703-736 | keeps the rows with geometry, under their object id or their position from the offset |
| `ArcGISPaging.KeptInFull` | internal/ingest/arcgis.go:703-736 | what is kept of a page are its rows with geometry, each once and in order, under its object id if it has one and else its place in the layer |
| `ArcGISPaging.HonouredStep` | internal/ingest/arcgis.go:235-304 | against a server that honours offsets, each page extends the result by exactly its rows and a final page completes it |
| `ArcGISPaging.RecursIff` | internal/ingest/arcgis.go:703-736 | a page served again brings no new id exactly when every position it gives a row without an id is already some row's id |
| `ArcGISPaging.WholeResponse` | internal/ingest/arcgis.go:235-304 | against a server that ignores offsets, one whole page is the layer exactly when its ids are distinct, and two are exactly when moreover the second adds no id |
| `ArcGISPaging.RepeatingEnds` | internal/ingest/arcgis.go:235-304 | a page is taken as final only if the layer is whole, and the result is then the layer exactly under that condition or a flagged first page |
| `ArcGISPaging.FetchAll` | internal/ingest/arcgis.go:160-233 | success means that no cap cut the layer; the result is then exactly the rows with geometry, once and in order, if and only if their ids are distinct and, where offsets are ignored, the first page is flagged or a second adds no id; where offsets are ignored the fetch succeeds if and only if the layer is whole and the first page that ends it is flagged or confirmed, and where they are honoured and ids are distinct if and only if the pages reach the end |
| `ArcGISPaging.SettledSucceeds` | internal/ingest/arcgis.go:235-304 | where a second page adds no id, the first or the second page decides the fetch |
| `ArcGISPaging.AnonymousSucceeds` | internal/ingest/arcgis.go:263-267 | without object ids, where offsets are ignored, a non-empty layer is fetched if and only if it is whole and some page below the cap carries a flag |
| `ArcGISPaging.MixedIdsCollide` | internal/ingest/arcgis.go:728-731 | where only some rows carry an id, a position can collide with one and a final first page loses a row, whether or not offsets are honoured |
| `ArcGISPaging.FlaglessFirstPageDuplicates` | internal/ingest/arcgis.go:266-267 | without ids, an offset-ignoring server that flags only its second page is fetched twice over |
| `ArcGISPaging.AnonymousIsDistinct` | internal/ingest/arcgis.go:703-736 | positions are distinct ids, so a layer without object ids that honours offsets is fetched whole; served twice, it brings new ids unless no row has geometry |
| `ArcGISPaging.IdentifiedIsSettled` | internal/ingest/arcgis.go:703-736 | a layer whose rows with geometry all carry ids of their own meets the exactness condition on every server |
| `HexLattice.RangesMissNothing` | internal/geo/hexgrid.go:54-58 | every lattice cell whose envelope touches the box is within the floor and ceil ranges, odd and negative columns included |
| `HexLattice.TouchesIff` | internal/geo/hexgrid.go:70-78 | the four comparisons hold exactly when the box and the envelope of the hexagon's vertices have a point in common |
| `HexLattice.HexGrid` | internal/geo/hexgrid.go:26-86 | lists each lattice cell whose envelope meets the box once and no other, in order and at its centre, odd columns half a height up, nothing for degenerate input; and every point of the box is in a listed hexagon |
| `HexLattice.HexagonIsRegular` | internal/geo/hexgrid.go:88-105 | the six vertices are at the edge length from the centre and from each other |
| `HexLattice.HexagonBySlant` | internal/geo/hexgrid.go:88-105 | being on the inner side of all six sides is a bound on two widths |
| `HexLattice.HexagonsCover` | internal/geo/hexgrid.go:62-69 | the lattice's hexagons leave no gap in the plane |
| `HexLattice.HexagonsDisjoint` | internal/geo/hexgrid.go:62-69 | the lattice's hexagons do not overlap: an interior point of one is in no other |
| `GameHeadline.InsolvencyFromForecast` | internal/game/game.go:480-563 | behind its guards, the headline is the insolvency year of a worst-first forecast over the spread cohorts at the bare tier prices |
| `GameHeadline.HeadlineInFull` | internal/game/game.go:480-563 | none for inputs out of bounds; else the first year, within the whole years of the horizon, in which the worst-first run of the spread cohorts at bare prices has a backlog of a full cycle of its first year's need |
| `GameHeadline.LargerBudgetLaterHeadline` | internal/game/game.go:439-463 | with sound tiers and a spread that stays on the scale, a larger budget never brings the headline forward |
| `HeadlineOrder.HeadlinesOutOfOrder` | internal/game/game.go:480-563 | off the scale it does: at an initial PCI of 99.999 under the default tiers, no budget is insolvent in year 3 and a budget of 5 in year 2 |
| `HeadlineOrder.FundedBarbell` | internal/forecast/scenario.go:166-228 | any partial funding drops a band far above 100 to 100, while the rest of the need is deferred |
| `GameTick.Game.constructor` | internal/game/game.go:252-323 | an accepted configuration gives the specified board, ids indexed first-wins, ranks, ceiling, treasury and the starting budget's headline |
| `GameTick.New` | internal/game/game.go:177-323 | refused exactly for no hexes or tiers, a horizon, condition, jitter or cycle out of range, a negative price, a hex without id, decay or with negative area, or a negative cohort; else the game starts on the specified board |
| `GameTick.TierCostRank` | internal/game/game.go:749-758 | counts the tiers that come before this one by cost, then position |
| `GameTick.Game.CountOpen` | internal/game/game.go:568-609 | the closed count and the area-weighted condition of the open hexes |
| `GameTick.Game.RecomputeStatus` | internal/game/game.go:568-591 | the status is decided by the three loss tests, then by the horizon, and only while running |
| `GameTick.Game.Tick` | internal/game/game.go:331-362 | the loop over hexes, with its memoised prices, takes exactly the specified step |
| `GameTick.Game.TreatOne` | internal/game/game.go:403-437 | applies exactly when running, known, resolvable and affordable, and then charges, pays down the backlog and lifts the hex |
| `GameTick.Game.Treat` | internal/game/game.go:371-377 | a treatment and, if applied, the status |
| `GameTick.Game.TreatBatch` | internal/game/game.go:384-395 | a stroke's treatments with one status at the end, and their count |
| `GameTick.Game.OutOfFundsNow` | internal/game/game.go:659-687 | the verdict is true exactly when some hex is open and none of the open ones is affordable at the cheapest price |
| `GameTick.Game.SetBudget` | internal/game/game.go:441-461 | the rate is clamped at zero, the headline becomes that rate's, and nothing else of the board changes |
| `GameLaws.DecaySplit` | internal/game/game.go:325-362 | decay over a then b is decay over a + b, also when the hex closes midway |
| `GameLaws.NeedSplit` | internal/game/game.go:325-362 | under a non-increasing curve, pricing the loss in two steps never costs more than at once |
| `GameLaws.ScheduleIsOneTick` | internal/game/game.go:325-362 | any schedule of ticks that keeps the game running ends, hex for hex and dollar for dollar, where one long tick would, with no more backlog, and with its verdict unless the long tick loses |
| `GameLaws.SoundCurveSuits` | internal/forecast/cost.go:61-87 | sound tiers are all that tick splitting asks of the prices |
| `GameLaws.StartIsSound` | internal/game/game.go:252-323 | a new game is sound: no debt, conditions in range, closed exactly at the threshold |
| `GameLaws.LiftRaises` | internal/game/game.go:425-436 | a treatment never worsens a hex, and the tier of highest rank restores it to 100 |
| `GameLaws.ActionKeepsSound` | internal/game/game.go:331-454 | every action keeps a sound game sound and accounts for its money, and a decided game's board, books and verdict no longer change |
| `GameLaws.GameKeepsSound` | internal/game/game.go:331-454 | over any game there is never debt, and treasury plus spending equals the start plus the income |
| `GameLaws.RanksSort` | internal/game/game.go:742-758 | ranks are distinct, below n, and ordered as a stable sort by cost: exactly one tier restores in full |
| `GameLaws.OutOfFundsOpen` | internal/game/game.go:681-687 | while the verdict holds, only a closed hex can be treated |
| `GameLaws.OutOfFundsIsFinalIff` | internal/game/game.go:681-687 | some treatment is still possible if and only if a closed hex that its id names is affordable at a tier that its label or auto reaches |
| `GameLaws.OutOfFundsIsNotFinal` | internal/game/game.go:681-687 | a starting board of two hexes on which the verdict holds and a treatment goes through |
| `GameOutcome.VerdictIff` | internal/game/game.go:568-610 | over any game: once time has passed it is lost if and only if the open roads average under 30 by area or have no area, more than half the hexes are closed, or the backlog is above the ceiling; it is won if and only if none of that holds, it is not endless and its years reach the horizon; and no game short of endless runs past its horizon |
| `GameOutcome.NewGameVerdict` | internal/game/game.go:252-323 | so it is for every game that an accepted configuration starts |
| `GameOutcome.NewGameInFull` | internal/game/game.go:252-323 | the starting board: each hex at the initial condition plus its jitter, cut to 0 and 100, closed at 1 or less; the budget, if positive, is treasury and rate |
| `GameOutcome.DearestIsHighest` | internal/game/game.go:252-323 | the price that the backlog ceiling rests on is the highest of any tier |
| `GameOutcome.TickInFull` | internal/game/game.go:325-362 | a tick of a running game: time and budget come in, each open hex fades by exp(-k dt) and closes at 1 or less, and the backlog grows by each open hex's area at the price of its new condition for the hundredths of condition it lost |
| `GameOutcome.TreatmentInFull` | internal/game/game.go:397-437 | a treatment of the first hex of its id at the first tier asked for: if running and affordable, the hex's area at the tier's price leaves the treasury, counts as spent and comes off the backlog down to zero, and the hex gains the share of its headroom that the number of cheaper tiers gives; else nothing changes |
| `GameOutcome.TreatmentRefused` | internal/game/game.go:403-415 | an id of no hex, or a request that means no tier, changes nothing |
| `GameOutcome.ActionPays` | internal/game/game.go:331-437 | after any action the backlog is the one before plus what the action accrues less what it spends, down to zero |
| `GameOutcome.BacklogBooks` | internal/game/game.go:331-437 | over any game the backlog is at most what has accrued and at least that less what has been spent |
| `GameLaws.StrokeIsSequence` | internal/game/game.go:379-395 | a stroke equals single treatments in turn as long as none before the last decides the game |

## Left out

- Floating-point rounding, NaN and infinity guards, and the rounding and formatting of output.
- HTTP, SQL text, TOML decoding, JSON, the file system, progress output and retries.
- Preventive-first budget monotonicity, zero-cost tiers and cost curves that fall as PCI falls: the
  order of two runs does not hold for them (`PreventiveRuns.PreventiveRunsOutOfOrder` shows the first).
- `FundingGap`: an expression.
- The numerical accuracy of the incomplete beta function's continued fraction.
- The wording of include warnings: the model keeps the slug, both include paths and the names of the
  fields.
- `stitchCoastlineChains`, the walk along the box's perimeter, and the choice of side by land probes:
  coastline stitching promises only that each way is used at most once.
- Polygon areas, unions, buffers, intersections, the R-tree and projections: library code.
- `ComputeHexStats`, `ClipHexesToBoundary` and the coverage sums: they rest on library intersections.
- The game's painted-band delta and its jitter hash.
- Servers that reorder or change rows between pages.
- Schema migrations, cache pruning, metric registry, unit parsing and jurisdiction rules.
- IncludeLoader.LoadedConfig.AppendCity: does not carry the tags of the city and of the include, because no other part of a merge reads them.
- IncludeLoader.MergeIncludedCities: does not union tags onto cities, for the same reason.
- IncludeLoader.Loader.ResolveOneInclude: takes include paths as already absolute, because joining paths is the file system's, and does not carry the include's tags.
- IncludeLoader.Load: of the validation after merging, models only the at-least-one-city test, because uniqueness of slugs is proved to survive merging and the other checks are per-city field ranges.
- StoreCommands.Database.GCSweep: does not delete stale features by source, because features are not part of runs or manifests.
- ArcGISPaging.FetchAll: for a server that honours offsets and a layer whose ids collide, states that a success is never exact, not when the fetch succeeds, because each page's own collisions decide it.
- SpreadScale.BetaFits: asks for facts of the Beta distribution instead of deriving them from its density, because the continued fraction that computes it is not modelled.
- StoreCommands.Draft.Commit: states the store right after its own discards; later interleavings are `SnapshotStore.DraftSettles`.
