/** Field by field, what a declaration states and what a resolved city comes out with
    (internal/config/include.go and provenance.go), in the fields of the files themselves. */
module IncludeFields {
  import opened IncludeConfig
  import opened IncludeMerge
  import opened IncludePlain
  import opened IncludeLaws

  /** What the environment's parser lets through. */
  predicate ValidEnv(env: Env) {
    && (env.hexEdge.Some? ==> env.hexEdge.value > 0.0)
    && (env.years.Some? ==> env.years.value > 0)
    && (env.initialPCI.Some? ==> 0.0 < env.initialPCI.value <= 100.0)
  }

  /** The city's block, which states nothing when there is none. */
  function Block(c: City): Forecast {
    if c.forecast.Some? then c.forecast.value else NoForecast
  }

  /** The first positive of the two, if any. */
  function FirstPositive(a: real, b: real): Option<real> {
    if a > 0.0 then Some(a) else if b > 0.0 then Some(b) else None
  }

  /** What a declaration is taken to say: its own name and grid, and for each field of the forecast the
      city's value where it states one, else the file's; growth_rate by presence. */
  lemma DeclarationSays(w: World, file: Config, c: City, id: Identity)
    requires ValidForecast(file.forecast) && ValidCity(c)
    ensures var said := Through(w, file, c, id);
            var s, own, top := said.stated, Block(c), file.forecast;
            && said.name == c.name
            && said.edge == (if c.hexEdge > 0.0 then c.hexEdge else file.hexEdge)
            && said.area == (if c.minHexArea > 0.0 then c.minHexArea else file.minHexArea)
            && (c.srcID == "" ==> said.source == id)
            && s.initialPCI == FirstPositive(own.initialPCI, top.initialPCI)
            && s.decayRate == FirstPositive(own.decayRate, top.decayRate)
            && s.treatmentCycleYears == FirstPositive(own.treatmentCycleYears, top.treatmentCycleYears)
            && s.currentBudget == FirstPositive(own.currentBudget, top.currentBudget)
            && s.costOverhead == FirstPositive(own.costOverhead, top.costOverhead)
            && s.years == (if own.years > 0 then Some(own.years) else if top.years > 0 then Some(top.years) else None)
            && s.costTiers == (if own.costTiers != [] then Some(own.costTiers)
                               else if top.costTiers != [] then Some(top.costTiers) else None)
            && s.growthRate == (if own.growthRateSet then Some(own.growthRate)
                                else if top.growthRateSet then Some(top.growthRate) else None)
  {
    hide EffectiveForecast;
    EffectiveSays(file, c);
  }

  function ValueOr<T>(v: Option<T>, default: T): T {
    if v.Some? then v.value else default
  }

  /** The edge under which a city is stored: the environment's, else its own, its file's or 100. */
  lemma EdgePrecedence(c: Config, city: City, env: Env)
    ensures ResolvedHexEdge(c, city, env.hexEdge) ==
            ValueOr(env.hexEdge, ValueOr(FirstPositive(city.hexEdge, c.hexEdge), 100.0))
    ensures ResolvedMinHexArea(c, city) == ValueOr(FirstPositive(city.minHexArea, c.minHexArea), 100.0)
  {
  }

  /** A city's resolved forecast: the environment's value where there is one, else what the city says,
      else what its file says, else the default. */
  lemma ForecastPrecedence(c: Config, city: City, env: Env)
    requires ValidForecast(c.forecast) && ValidCity(city) && ValidEnv(env)
    ensures var r, own, top := ResolvedForecast(c, city, env), Block(city), c.forecast;
            && r.initialPCI == ValueOr(env.initialPCI, ValueOr(FirstPositive(own.initialPCI, top.initialPCI), 85.0))
            && r.years == ValueOr(env.years, if own.years > 0 then own.years
                                             else if top.years > 0 then top.years else 20)
            && r.decayRate == ValueOr(FirstPositive(own.decayRate, top.decayRate), 0.0)
            && r.growthRate == (if own.growthRateSet then own.growthRate
                                else if top.growthRateSet then top.growthRate else 0.0)
            && r.costTiers == (if own.costTiers != [] then own.costTiers else top.costTiers)
            && r.treatmentCycleYears == ValueOr(FirstPositive(own.treatmentCycleYears, top.treatmentCycleYears), 0.0)
            && r.currentBudget == ValueOr(FirstPositive(own.currentBudget, top.currentBudget), 0.0)
            && r.costOverhead == ValueOr(FirstPositive(own.costOverhead, top.costOverhead), 1.0)
  {
  }

  /** A city that came from includes resolves, field by field, to the environment's value, else to the
      first one stated in depth-first declaration order, else to the default. */
  lemma IncludedFields(w: World, path: Path, n: nat, slug: string, env: Env)
    requires ValidWorld(w) && Plain(w, path, n).Ok? && ValidEnv(env)
    requires var r := Plain(w, path, n).value.config;
             Lookup(w.files[path].config.cities, slug).None? && Lookup(r.cities, slug).Some?
    ensures var c, cs := Plain(w, path, n).value.config, Statements(w, path, slug, n);
            cs != [] &&
            var r, s := ResolvedForecast(c, Lookup(c.cities, slug).value, env), Fold(cs).stated;
            && r.initialPCI == ValueOr(env.initialPCI, ValueOr(s.initialPCI, 85.0))
            && r.years == ValueOr(env.years, ValueOr(s.years, 20))
            && r.decayRate == ValueOr(s.decayRate, 0.0) && r.growthRate == ValueOr(s.growthRate, 0.0)
            && r.costTiers == ValueOr(s.costTiers, [])
            && r.treatmentCycleYears == ValueOr(s.treatmentCycleYears, 0.0)
            && r.currentBudget == ValueOr(s.currentBudget, 0.0) && r.costOverhead == ValueOr(s.costOverhead, 1.0)
            && IsFirst(Column(cs, (d: Stated) => d.initialPCI), s.initialPCI)
            && IsFirst(Column(cs, (d: Stated) => d.years), s.years)
            && IsFirst(Column(cs, (d: Stated) => d.decayRate), s.decayRate)
            && IsFirst(Column(cs, (d: Stated) => d.growthRate), s.growthRate)
            && IsFirst(Column(cs, (d: Stated) => d.costTiers), s.costTiers)
            && IsFirst(Column(cs, (d: Stated) => d.treatmentCycleYears), s.treatmentCycleYears)
            && IsFirst(Column(cs, (d: Stated) => d.currentBudget), s.currentBudget)
            && IsFirst(Column(cs, (d: Stated) => d.costOverhead), s.costOverhead)
  {
    hide FoldInclude, Statements, Fold, IsFirst, Column, Included, EffectiveForecast, ResolvedForecast;
    IncludedCityMeans(w, path, n, slug);
    EachFieldIsFirstStated(Statements(w, path, slug, n));
    var c := Plain(w, path, n).value.config;
    IncludedIsValid(w, Lookup(c.cities, slug).value);
    ForecastPrecedence(c, Lookup(c.cities, slug).value, env);
  }

  lemma IncludedIsValid(w: World, c: City)
    requires Included(w, c)
    ensures ValidCity(c)
  {
  }
}
