/** Folding an included file's cities into its parent, internal/config/include.go: the per-field
    forecast union, the atomic grid pair with its source identity, and the slug union. */
module IncludeMerge {
  import opened IncludeConfig

  // ---------------------------------------------------------- forecast union

  /** The first of two values that is not the unset sentinel. */
  function Pick<T(==)>(dst: T, src: T, unset: T): T {
    if dst == unset then src else dst
  }

  /** unionForecast: dst wins every field it states. */
  function UnionForecast(dst: Forecast, src: Forecast): Forecast {
    Forecast(Pick(dst.initialPCI, src.initialPCI, 0.0),
             Pick(dst.decayRate, src.decayRate, 0.0),
             if StatesGrowth(dst) then dst.growthRate else src.growthRate,
             if StatesGrowth(dst) then dst.growthRateSet else src.growthRateSet,
             Pick(dst.years, src.years, 0),
             Pick(dst.costTiers, src.costTiers, []),
             Pick(dst.treatmentCycleYears, src.treatmentCycleYears, 0.0),
             Pick(dst.currentBudget, src.currentBudget, 0.0),
             Pick(dst.costOverhead, src.costOverhead, 0.0))
  }

  function Conflict<T(==)>(dst: T, src: T, unset: T, field: string): seq<string> {
    if src != unset && dst != unset && dst != src then [field] else []
  }

  function GrowthConflict(dst: Forecast, src: Forecast): seq<string> {
    if StatesGrowth(src) && StatesGrowth(dst) && dst.growthRate != src.growthRate then ["forecast.growth_rate"] else []
  }

  /** The fields both state, differently: the ones a warning names. */
  function ForecastConflicts(dst: Forecast, src: Forecast): seq<string> {
    Conflict(dst.initialPCI, src.initialPCI, 0.0, "forecast.initial_pci")
    + Conflict(dst.decayRate, src.decayRate, 0.0, "forecast.decay_rate")
    + GrowthConflict(dst, src)
    + Conflict(dst.treatmentCycleYears, src.treatmentCycleYears, 0.0, "forecast.treatment_cycle_years")
    + Conflict(dst.currentBudget, src.currentBudget, 0.0, "forecast.current_budget")
    + Conflict(dst.costOverhead, src.costOverhead, 0.0, "forecast.cost_overhead")
    + Conflict(dst.years, src.years, 0, "forecast.years")
    + Conflict(dst.costTiers, src.costTiers, [], "forecast.cost_tiers")
  }

  /** A city with no block adopts the incoming one whole. */
  function UnionOf(dst: Option<Forecast>, src: Forecast): Forecast {
    if dst.None? then src else UnionForecast(dst.value, src)
  }

  function ConflictsOf(dst: Option<Forecast>, src: Forecast): seq<string> {
    if dst.None? then [] else ForecastConflicts(dst.value, src)
  }

  /** What a block says about each field: its value when stated. */
  datatype Stated = Stated(initialPCI: Option<real>, decayRate: Option<real>, growthRate: Option<real>,
                           years: Option<int>, costTiers: Option<seq<Tier>>, treatmentCycleYears: Option<real>,
                           currentBudget: Option<real>, costOverhead: Option<real>)

  function Say<T(==)>(v: T, unset: T): Option<T> {
    if v == unset then None else Some(v)
  }

  function Says(f: Forecast): Stated {
    Stated(Say(f.initialPCI, 0.0), Say(f.decayRate, 0.0), if StatesGrowth(f) then Some(f.growthRate) else None,
           Say(f.years, 0), Say(f.costTiers, []), Say(f.treatmentCycleYears, 0.0), Say(f.currentBudget, 0.0),
           Say(f.costOverhead, 0.0))
  }

  function SaysOpt(f: Option<Forecast>): Stated {
    if f.Some? then Says(f.value) else Says(NoForecast)
  }

  function First<T>(a: Option<T>, b: Option<T>): Option<T> {
    if a.Some? then a else b
  }

  /** Field by field, the first statement wins. */
  function FirstSaid(a: Stated, b: Stated): Stated {
    Stated(First(a.initialPCI, b.initialPCI), First(a.decayRate, b.decayRate), First(a.growthRate, b.growthRate),
           First(a.years, b.years), First(a.costTiers, b.costTiers),
           First(a.treatmentCycleYears, b.treatmentCycleYears), First(a.currentBudget, b.currentBudget),
           First(a.costOverhead, b.costOverhead))
  }

  function Clash<T(==)>(a: Option<T>, b: Option<T>): bool {
    a.Some? && b.Some? && a.value != b.value
  }

  /** Some field is stated by both, with different values. */
  predicate Disagree(a: Stated, b: Stated) {
    Clash(a.initialPCI, b.initialPCI) || Clash(a.decayRate, b.decayRate) || Clash(a.growthRate, b.growthRate) ||
    Clash(a.years, b.years) || Clash(a.costTiers, b.costTiers) || Clash(a.treatmentCycleYears, b.treatmentCycleYears) ||
    Clash(a.currentBudget, b.currentBudget) || Clash(a.costOverhead, b.costOverhead)
  }

  /** The union keeps each field's first statement, by presence for growth_rate and by value for
      the rest, and reports exactly the disagreements. */
  lemma UnionIsFirstSaid(dst: Forecast, src: Forecast)
    ensures Says(UnionForecast(dst, src)) == FirstSaid(Says(dst), Says(src))
    ensures ForecastConflicts(dst, src) != [] <==> Disagree(Says(dst), Says(src))
    ensures ValidForecast(dst) && ValidForecast(src) ==> ValidForecast(UnionForecast(dst, src))
  {
  }

  lemma FirstSaidAssociative(a: Stated, b: Stated, c: Stated)
    ensures FirstSaid(FirstSaid(a, b), c) == FirstSaid(a, FirstSaid(b, c))
  {
  }

  /** A city's block over its file's is again a first-statement union. */
  lemma EffectiveSays(c: Config, city: City)
    requires ValidForecast(c.forecast) && ValidCity(city)
    ensures SaysOpt(EffectiveForecast(c, city)) == FirstSaid(SaysOpt(city.forecast), Says(c.forecast))
    ensures EffectiveForecast(c, city).Some? ==> ValidForecast(EffectiveForecast(c, city).value)
    ensures EffectiveForecast(c, city).None? <==> SaysOpt(EffectiveForecast(c, city)) == Says(NoForecast)
  {
  }

  /** Flattening is invisible to resolution: read under a parent that states nothing, the city's
      flattened block resolves to exactly what the declaring file resolves. */
  lemma FlattenedResolvesTheSame(parent: Config, child: Config, src: City, env: Env)
    requires ForecastIsZero(parent.forecast) && ValidForecast(child.forecast) && ValidCity(src)
    ensures var flat := src.(forecast := EffectiveForecast(child, src));
            var there, here := ResolvedForecast(child, src, env), ResolvedForecast(parent, flat, env);
            here.(growthRateSet := there.growthRateSet) == there
  {
  }

  // --------------------------------------------------------------- the grid

  datatype Identity = Identity(configID: string, hash: string)

  /** A city states a grid when it names either half of the pair. */
  predicate StatesGrid(edge: real, area: real) {
    edge != 0.0 || area != 0.0
  }

  function GridConflicts(existing: City, edge: real, area: real): seq<string> {
    (if edge != 0.0 && edge != existing.hexEdge then ["hex_edge_m"] else [])
    + (if area != 0.0 && area != existing.minHexArea then ["min_hex_area"] else [])
  }

  /** unionGrid adopts the pair as a unit, only onto a city that states neither half. */
  predicate AdoptsGrid(existing: City, child: Config, src: City) {
    && StatesGrid(EffectiveHexEdge(child, src), EffectiveMinHexArea(child, src))
    && !StatesGrid(existing.hexEdge, existing.minHexArea)
  }

  /** The identity that comes with src's grid: its own when it has one. */
  function SourceOf(src: City, id: Identity): Identity {
    if src.srcID != "" then Identity(src.srcID, src.srcHash) else id
  }

  /** mergeExistingCity: the forecast union, and the grid with its edge and identity, or neither. */
  function MergeExisting(existing: City, child: Config, src: City, env: Option<real>, id: Identity): City {
    var srcForecast := EffectiveForecast(child, src);
    var forecast :=
      if srcForecast.None? then existing.forecast else Some(UnionOf(existing.forecast, srcForecast.value));
    if AdoptsGrid(existing, child, src) then
      var from := SourceOf(src, id);
      existing.(forecast := forecast, hexEdge := EffectiveHexEdge(child, src),
                minHexArea := EffectiveMinHexArea(child, src),
                srcEdge := ResolvedHexEdge(child, src, env), srcID := from.configID, srcHash := from.hash)
    else
      existing.(forecast := forecast)
  }

  function MergeConflicts(existing: City, child: Config, src: City): seq<string> {
    var edge, area := EffectiveHexEdge(child, src), EffectiveMinHexArea(child, src);
    var grid :=
      if StatesGrid(edge, area) && StatesGrid(existing.hexEdge, existing.minHexArea)
      then GridConflicts(existing, edge, area) else [];
    var srcForecast := EffectiveForecast(child, src);
    grid + (if srcForecast.Some? then ConflictsOf(existing.forecast, srcForecast.value) else [])
  }

  /** A city new to the parent, with its calibration flattened and its identity stamped if unset. */
  function MergeNew(child: Config, src: City, env: Option<real>, id: Identity): City {
    src.(hexEdge := EffectiveHexEdge(child, src), minHexArea := EffectiveMinHexArea(child, src),
         forecast := EffectiveForecast(child, src),
         srcID := if src.srcID == "" then id.configID else src.srcID,
         srcHash := if src.srcHash == "" then id.hash else src.srcHash,
         srcEdge := if src.srcEdge == 0.0 then ResolvedHexEdge(child, src, env) else src.srcEdge)
  }

  // ------------------------------------------------------------ slug union

  datatype Warning = Warning(slug: string, winner: string, loser: string, fields: seq<string>)

  /** One parent being assembled: its cities, the include each slug first came from, and warnings. */
  datatype Acc = Acc(cities: seq<City>, fromInclude: map<string, string>, warnings: seq<Warning>)

  datatype Result<+T> = Ok(value: T) | Err

  /** The position of a slug, or |cities|. */
  function IndexOf(cities: seq<City>, slug: string): (i: nat)
    ensures i <= |cities|
    ensures i < |cities| ==> cities[i].slug == slug
    ensures forall k :: 0 <= k < i ==> cities[k].slug != slug
  {
    if cities == [] || cities[0].slug == slug then 0 else 1 + IndexOf(cities[1..], slug)
  }

  /** One iteration of mergeIncludedCities. */
  function MergeCity(acc: Acc, child: Config, src: City, incAbs: string, env: Option<real>, id: Identity): Result<Acc> {
    var i := IndexOf(acc.cities, src.slug);
    if i == |acc.cities| then
      Ok(Acc(acc.cities + [MergeNew(child, src, env, id)], acc.fromInclude[src.slug := incAbs], acc.warnings))
    else
      var existing := acc.cities[i];
      if existing.name != src.name then Err
      else if src.slug !in acc.fromInclude then Ok(acc)
      else
        var fields := MergeConflicts(existing, child, src);
        Ok(acc.(cities := acc.cities[i := MergeExisting(existing, child, src, env, id)],
                warnings := if fields == [] then acc.warnings
                            else acc.warnings + [Warning(src.slug, acc.fromInclude[src.slug], incAbs, fields)]))
  }

  /** mergeIncludedCities over the child's first n cities. */
  function MergeCities(acc: Acc, child: Config, n: nat, incAbs: string, env: Option<real>, id: Identity): Result<Acc>
    requires n <= |child.cities|
  {
    if n == 0 then Ok(acc)
    else
      var before := MergeCities(acc, child, n - 1, incAbs, env, id);
      if before.Err? then Err else MergeCity(before.value, child, child.cities[n - 1], incAbs, env, id)
  }
}
