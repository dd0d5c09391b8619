/** Parsed configurations and their resolution layers, internal/config/provenance.go and the
    effective* functions of internal/config/include.go. */
module IncludeConfig {

  datatype Option<+T> = None | Some(value: T)

  datatype Tier = Tier(minPCI: real, maxPCI: real, costPerSqM: real, name: string)

  /** One [forecast] block. Zero means unset in every field but growth_rate, whose presence has a bit. */
  datatype Forecast = Forecast(initialPCI: real, decayRate: real, growthRate: real, growthRateSet: bool, years: int,
                               costTiers: seq<Tier>, treatmentCycleYears: real, currentBudget: real, costOverhead: real)

  const NoForecast := Forecast(0.0, 0.0, 0.0, false, 0, [], 0.0, 0.0, 0.0)

  datatype City = City(name: string, slug: string, hexEdge: real, minHexArea: real, forecast: Option<Forecast>,
                       srcID: string, srcHash: string, srcEdge: real)

  datatype IncludeSpec = IncludeSpec(path: string)

  datatype Config = Config(configID: string, cities: seq<City>, includes: seq<IncludeSpec>, forecast: Forecast,
                           hexEdge: real, minHexArea: real)

  const DefaultHexEdgeM := 100.0
  const DefaultMinHexArea := 100.0
  const DefaultInitialPCI := 85.0
  const DefaultForecastYears := 20
  const DefaultCostOverhead := 1.0

  // ------------------------------------------------------------- validation

  /** ForecastConfig.Validate, as far as signs matter; a nonzero growth rate was stated. */
  predicate ValidForecast(f: Forecast) {
    && 0.0 <= f.initialPCI <= 100.0 && f.decayRate >= 0.0 && f.years >= 0 && f.treatmentCycleYears >= 0.0
    && f.currentBudget >= 0.0 && f.costOverhead >= 0.0 && (f.growthRate != 0.0 ==> f.growthRateSet)
  }

  predicate ForecastIsZero(f: Forecast) {
    && !f.growthRateSet
    && f.initialPCI == 0.0 && f.decayRate == 0.0 && f.growthRate == 0.0 && f.years == 0 && |f.costTiers| == 0
    && f.treatmentCycleYears == 0.0 && f.currentBudget == 0.0 && f.costOverhead == 0.0
  }

  predicate ValidCity(c: City) {
    && c.hexEdge >= 0.0 && c.minHexArea >= 0.0
    && (c.forecast.Some? ==> ValidForecast(c.forecast.value))
  }

  /** Slugs are unique within a file. */
  predicate DistinctSlugs(cities: seq<City>) {
    forall i, j :: 0 <= i < j < |cities| ==> cities[i].slug != cities[j].slug
  }

  /** What a parsed file satisfies: an including file states no top-level calibration, and no file
      states a source identity. */
  predicate ValidFile(c: Config) {
    && ValidForecast(c.forecast) && c.hexEdge >= 0.0 && c.minHexArea >= 0.0
    && DistinctSlugs(c.cities)
    && (forall i :: 0 <= i < |c.cities| ==> ValidCity(c.cities[i]) && c.cities[i].srcID == "" &&
                                            c.cities[i].srcHash == "" && c.cities[i].srcEdge == 0.0)
    && (|c.includes| > 0 ==> ForecastIsZero(c.forecast) && c.hexEdge == 0.0 && c.minHexArea == 0.0)
  }

  // -------------------------------------------------------------- resolution

  function EffectiveHexEdge(c: Config, city: City): real {
    if city.hexEdge > 0.0 then city.hexEdge else c.hexEdge
  }

  function EffectiveMinHexArea(c: Config, city: City): real {
    if city.minHexArea > 0.0 then city.minHexArea else c.minHexArea
  }

  /** resolveHexEdgeForCity: env, then city, then file, then default. */
  function ResolvedHexEdge(c: Config, city: City, env: Option<real>): real {
    if env.Some? then env.value
    else if city.hexEdge > 0.0 then city.hexEdge
    else if c.hexEdge > 0.0 then c.hexEdge
    else DefaultHexEdgeM
  }

  /** resolveMinHexAreaForCity: city, then file, then default. */
  function ResolvedMinHexArea(c: Config, city: City): real {
    if city.minHexArea > 0.0 then city.minHexArea
    else if c.minHexArea > 0.0 then c.minHexArea
    else DefaultMinHexArea
  }

  predicate StatesGrowth(f: Forecast) {
    f.growthRateSet || f.growthRate != 0.0
  }

  /** applyCityForecastProv: the city's block over fc, field by field. */
  function ApplyCity(fc: Forecast, city: City): Forecast {
    if city.forecast.None? then fc
    else
      var ov := city.forecast.value;
      Forecast(
        if 0.0 < ov.initialPCI <= 100.0 then ov.initialPCI else fc.initialPCI,
        if ov.decayRate > 0.0 then ov.decayRate else fc.decayRate,
        if StatesGrowth(ov) then ov.growthRate else fc.growthRate,
        if StatesGrowth(ov) then true else fc.growthRateSet,
        if ov.years > 0 then ov.years else fc.years,
        if |ov.costTiers| > 0 then ov.costTiers else fc.costTiers,
        if ov.treatmentCycleYears > 0.0 then ov.treatmentCycleYears else fc.treatmentCycleYears,
        if ov.currentBudget > 0.0 then ov.currentBudget else fc.currentBudget,
        if ov.costOverhead > 0.0 then ov.costOverhead else fc.costOverhead)
  }

  function EffectiveForecast(c: Config, city: City): Option<Forecast> {
    var fc := ApplyCity(c.forecast, city);
    if ForecastIsZero(fc) then None else Some(fc)
  }

  /** The environment's overrides. */
  datatype Env = Env(hexEdge: Option<real>, years: Option<int>, initialPCI: Option<real>)

  function ApplyEnv(fc: Forecast, env: Env): Forecast {
    fc.(years := if env.years.Some? then env.years.value else fc.years,
        initialPCI := if env.initialPCI.Some? then env.initialPCI.value else fc.initialPCI)
  }

  function ApplyDefaults(fc: Forecast): Forecast {
    fc.(initialPCI := if fc.initialPCI <= 0.0 || fc.initialPCI > 100.0 then DefaultInitialPCI else fc.initialPCI,
        years := if fc.years <= 0 then DefaultForecastYears else fc.years,
        costOverhead := if fc.costOverhead <= 0.0 then DefaultCostOverhead else fc.costOverhead)
  }

  /** resolveForecast: env, then city, then file, then default. */
  function ResolvedForecast(c: Config, city: City, env: Env): Forecast {
    ApplyDefaults(ApplyEnv(ApplyCity(c.forecast, city), env))
  }
}
