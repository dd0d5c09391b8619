/** The memoised loader of internal/config/include.go on the heap: configs and forecast blocks are
    objects that merging updates in place, and the cache hands out references to them. */
module IncludeLoader {
  import opened IncludeConfig
  import opened IncludeMerge
  import opened IncludePlain
  import opened IncludeReach

  // ---------------------------------------------------------- forecast blocks

  /** unionFloat, and the same switch for years and cost_tiers. */
  method UnionField<T(==)>(dst: T, incoming: T, unset: T, name: string) returns (kept: T, report: seq<string>)
    ensures kept == Pick(dst, incoming, unset)
    ensures report == Conflict(dst, incoming, unset, name)
  {
    kept, report := dst, [];
    if incoming == unset {
    } else if dst == unset {
      kept := incoming;
    } else if dst != incoming {
      report := [name];
    }
  }

  /** A forecast block: a city's pointer to one may be shared. */
  class Block {
    var initialPCI: real
    var decayRate: real
    var growthRate: real
    var growthRateSet: bool
    var years: int
    var costTiers: seq<Tier>
    var treatmentCycleYears: real
    var currentBudget: real
    var costOverhead: real

    constructor (f: Forecast)
      ensures Value() == f
    {
      initialPCI, decayRate, growthRate, growthRateSet := f.initialPCI, f.decayRate, f.growthRate, f.growthRateSet;
      years, costTiers, treatmentCycleYears := f.years, f.costTiers, f.treatmentCycleYears;
      currentBudget, costOverhead := f.currentBudget, f.costOverhead;
    }

    function Value(): Forecast
      reads this
    {
      Forecast(initialPCI, decayRate, growthRate, growthRateSet, years, costTiers, treatmentCycleYears, currentBudget,
               costOverhead)
    }

    /** unionForecast: this block wins every field it states. */
    method Union(src: Forecast) returns (conflicts: seq<string>)
      modifies this
      ensures Value() == UnionForecast(old(Value()), src)
      ensures conflicts == ForecastConflicts(old(Value()), src)
    {
      var report;
      initialPCI, conflicts := UnionField(initialPCI, src.initialPCI, 0.0, "forecast.initial_pci");
      decayRate, report := UnionField(decayRate, src.decayRate, 0.0, "forecast.decay_rate");
      conflicts := conflicts + report;
      report := UnionGrowthRate(src);
      conflicts := conflicts + report;
      treatmentCycleYears, report :=
        UnionField(treatmentCycleYears, src.treatmentCycleYears, 0.0, "forecast.treatment_cycle_years");
      conflicts := conflicts + report;
      currentBudget, report := UnionField(currentBudget, src.currentBudget, 0.0, "forecast.current_budget");
      conflicts := conflicts + report;
      costOverhead, report := UnionField(costOverhead, src.costOverhead, 0.0, "forecast.cost_overhead");
      conflicts := conflicts + report;
      years, report := UnionField(years, src.years, 0, "forecast.years");
      conflicts := conflicts + report;
      costTiers, report := UnionField(costTiers, src.costTiers, [], "forecast.cost_tiers");
      conflicts := conflicts + report;
    }

    /** unionGrowthRate: presence, not value, decides. */
    method UnionGrowthRate(src: Forecast) returns (report: seq<string>)
      modifies this`growthRate, this`growthRateSet
      ensures growthRate == old(if StatesGrowth(Value()) then growthRate else src.growthRate)
      ensures growthRateSet == old(if StatesGrowth(Value()) then growthRateSet else src.growthRateSet)
      ensures report == old(GrowthConflict(Value(), src))
    {
      report := [];
      if !src.growthRateSet && src.growthRate == 0.0 {
      } else if !growthRateSet && growthRate == 0.0 {
        growthRate, growthRateSet := src.growthRate, src.growthRateSet;
      } else if growthRate != src.growthRate {
        report := ["forecast.growth_rate"];
      }
    }
  }

  // ------------------------------------------------------------------ configs

  /** A city as stored: its own fields, and the block its forecast pointer leads to. */
  datatype Cell = Cell(facts: City, block: Block?) {
    function Read(): City
      reads block
    {
      facts.(forecast := if block == null then None else Some(block.Value()))
    }
  }

  /** A parsed config that merging grows and edits in place. */
  class LoadedConfig {
    const file: Config
    var cells: seq<Cell>
    ghost var cities: seq<City>
    ghost var blocks: set<Block>

    ghost predicate Valid()
      reads this, blocks
    {
      && |cells| == |cities|
      && (forall i :: 0 <= i < |cells| ==> Holds(cells[i], cities[i]))
      && (forall i, j :: 0 <= i < j < |cells| && cells[i].block != null ==> cells[i].block != cells[j].block)
    }

    /** The cell holds the city, in a block of this config's own. */
    ghost predicate Holds(cell: Cell, city: City)
      reads this, blocks
    {
      (cell.block != null ==> cell.block in blocks) && cell.Read() == city
    }

    ghost function Value(): Config
      reads this
    {
      file.(cities := cities)
    }

    /** The config as parsed: each stated forecast is a new block. */
    constructor (file: Config)
      ensures Valid() && this.file == file && cities == file.cities && fresh(blocks)
    {
      this.file := file;
      cells, cities, blocks := [], [], {};
      new;
      assert file.cities[..0] == [];
      for i := 0 to |file.cities|
        invariant Valid() && cities == file.cities[..i] && fresh(blocks)
      {
        var c := file.cities[i];
        var block: Block? := null;
        if c.forecast.Some? {
          block := new Block(c.forecast.value);
          blocks := blocks + {block};
        }
        cells, cities := cells + [Cell(c, block)], cities + [c];
      }
      assert file.cities[..|file.cities|] == file.cities;
    }

    /** Folds a stated forecast into city i's block, or gives the city one. */
    method UnionBlock(i: nat, src: Forecast) returns (conflicts: seq<string>)
      requires Valid() && i < |cells|
      modifies this, blocks
      ensures Valid() && fresh(blocks - old(blocks))
      ensures cities == old(cities)[i := old(cities[i]).(forecast := Some(UnionOf(old(cities[i]).forecast, src)))]
      ensures conflicts == ConflictsOf(old(cities[i]).forecast, src)
    {
      hide ForecastConflicts, UnionForecast;
      assert Holds(cells[i], cities[i]);
      var cell := cells[i];
      conflicts := [];
      if cell.block == null {
        var block := new Block(src);
        blocks := blocks + {block};
        cell := cell.(block := block);
      } else {
        conflicts := cell.block.Union(src);
      }
      cells := cells[i := cell];
      cities := cities[i := cell.Read()];
    }

    /** unionGrid: the pair as a unit, only onto a city that states neither half. */
    method UnionGrid(i: nat, edge: real, area: real) returns (adopted: bool, conflicts: seq<string>)
      requires Valid() && i < |cells|
      modifies this`cells, this`cities
      ensures Valid()
      ensures adopted == (StatesGrid(edge, area) && !StatesGrid(old(cities[i]).hexEdge, old(cities[i]).minHexArea))
      ensures cities ==
              if adopted then old(cities)[i := old(cities[i]).(hexEdge := edge, minHexArea := area)] else old(cities)
      ensures conflicts == if StatesGrid(edge, area) && !adopted then GridConflicts(old(cities[i]), edge, area) else []
    {
      assert Holds(cells[i], cities[i]);
      adopted, conflicts := false, [];
      if !StatesGrid(edge, area) {
        return;
      }
      if !StatesGrid(cells[i].facts.hexEdge, cells[i].facts.minHexArea) {
        adopted := true;
        Restate(i, cells[i].facts.(hexEdge := edge, minHexArea := area));
        return;
      }
      conflicts := GridConflicts(cells[i].facts, edge, area);
    }

    /** Rewrites city i's own fields, apart from its forecast. */
    method Restate(i: nat, facts: City)
      requires Valid() && i < |cells|
      modifies this`cells, this`cities
      ensures Valid() && |cells| == old(|cells|) && cells[i].facts == facts
      ensures cities == old(cities)[i := facts.(forecast := old(cities[i]).forecast)]
    {
      assert Holds(cells[i], cities[i]);
      cells := cells[i := cells[i].(facts := facts)];
      cities := cities[i := facts.(forecast := cities[i].forecast)];
    }

    /** mergeExistingCity: edits city i and its block in place. */
    method MergeExistingCity(i: nat, child: Config, src: City, env: Option<real>, id: Identity)
      returns (fields: seq<string>)
      requires Valid() && i < |cells|
      modifies this, blocks
      ensures Valid() && fresh(blocks - old(blocks))
      ensures cities == old(cities)[i := MergeExisting(old(cities[i]), child, src, env, id)]
      ensures fields == MergeConflicts(old(cities[i]), child, src)
    {
      hide EffectiveForecast, EffectiveHexEdge, EffectiveMinHexArea, ResolvedHexEdge, GridConflicts, SourceOf;
      hide StatesGrid, ForecastConflicts, UnionForecast, Holds;
      assert |cells| == |cities|;
      ghost var was := cities[i];
      var adopted;
      adopted, fields := UnionGrid(i, EffectiveHexEdge(child, src), EffectiveMinHexArea(child, src));
      var srcForecast := EffectiveForecast(child, src);
      if srcForecast.Some? {
        var more := UnionBlock(i, srcForecast.value);
        fields := fields + more;
      }
      assert fields == MergeConflicts(was, child, src);
      if adopted {
        var from := SourceOf(src, id);
        SameFacts(cells[i], cities[i]);
        Restate(i, cells[i].facts.(srcEdge := ResolvedHexEdge(child, src, env), srcID := from.configID,
                                   srcHash := from.hash));
      }
      assert cities[i] == MergeExisting(was, child, src, env, id);
    }

    lemma SameFacts(cell: Cell, city: City)
      requires Holds(cell, city)
      ensures city == cell.facts.(forecast := city.forecast)
    {
    }

    /** A city this config did not have, with its calibration in a block of its own. */
    method AppendCity(child: Config, src: City, env: Option<real>, id: Identity)
      requires Valid()
      modifies this
      ensures Valid() && fresh(blocks - old(blocks))
      ensures cities == old(cities) + [MergeNew(child, src, env, id)]
    {
      var merged := MergeNew(child, src, env, id);
      var block: Block? := null;
      if merged.forecast.Some? {
        block := new Block(merged.forecast.value);
        blocks := blocks + {block};
      }
      cells, cities := cells + [Cell(merged, block)], cities + [merged];
    }
  }

  // -------------------------------------------------------------- slug union

  /** IndexOf depends only on the slugs. */
  lemma {:induction false} IndexOfSlugs(a: seq<City>, b: seq<City>, slug: string)
    requires |a| <= |b| && forall k :: 0 <= k < |a| ==> a[k].slug == b[k].slug
    ensures IndexOf(a, slug) < |a| || |a| == |b| ==> IndexOf(b, slug) == IndexOf(a, slug)
  {
    if a != [] && a[0].slug != slug {
      IndexOfSlugs(a[1..], b[1..], slug);
    }
  }

  lemma IndexOfIs(cities: seq<City>, slug: string, i: nat)
    requires i < |cities| && cities[i].slug == slug
    requires forall k :: 0 <= k < i ==> cities[k].slug != slug
    ensures IndexOf(cities, slug) == i
  {
  }

  ghost predicate Indexed(byslug: map<string, nat>, cities: seq<City>) {
    && (forall s :: s in byslug ==> byslug[s] < |cities| && byslug[s] == IndexOf(cities, s))
    && (forall i :: 0 <= i < |cities| ==> cities[i].slug in byslug)
  }

  lemma IndexedAppend(byslug: map<string, nat>, before: seq<City>, after: seq<City>)
    requires |after| == |before| + 1 && after[..|before|] == before
    requires Indexed(byslug, before) && after[|before|].slug !in byslug
    ensures Indexed(byslug[after[|before|].slug := |before|], after)
  {
    hide IndexOf;
    assert forall k :: 0 <= k < |before| ==> before[k] == after[k];
    forall s | s in byslug
      ensures byslug[s] == IndexOf(after, s)
    {
      IndexOfSlugs(before, after, s);
    }
    IndexOfIs(after, after[|before|].slug, |before|);
  }

  /** byslug and fromInclude of one parent. */
  class MergeState {
    var byslug: map<string, nat>
    var fromInclude: map<string, string>

    ghost predicate Indexes(cities: seq<City>)
      reads this
    {
      Indexed(byslug, cities)
    }

    constructor (parent: LoadedConfig)
      requires parent.Valid() && DistinctSlugs(parent.cities)
      ensures Indexes(parent.cities) && fromInclude == map[]
    {
      byslug, fromInclude := map[], map[];
      new;
      for i := 0 to |parent.cells|
        invariant fromInclude == map[]
        invariant forall s :: s in byslug ==> byslug[s] < i && parent.cities[byslug[s]].slug == s
        invariant forall k :: 0 <= k < i ==> parent.cities[k].slug in byslug
      {
        assert parent.Holds(parent.cells[i], parent.cities[i]);
        byslug := byslug[parent.cells[i].facts.slug := i];
      }
      forall s | s in byslug
        ensures byslug[s] == IndexOf(parent.cities, s)
      {
        IndexOfIs(parent.cities, s, byslug[s]);
      }
    }

    lemma Finds(cities: seq<City>, slug: string)
      requires Indexes(cities)
      ensures slug in byslug <==> IndexOf(cities, slug) < |cities|
      ensures slug in byslug ==> byslug[slug] == IndexOf(cities, slug)
    {
    }

    lemma StillIndexes(cities: seq<City>, edited: seq<City>)
      requires Indexes(cities) && |edited| == |cities|
      requires forall k :: 0 <= k < |cities| ==> cities[k].slug == edited[k].slug
      ensures Indexes(edited)
    {
      forall s | s in byslug
        ensures byslug[s] == IndexOf(edited, s)
      {
        IndexOfSlugs(cities, edited, s);
      }
    }

    /** Records the city just appended. */
    method Record(parent: LoadedConfig, slug: string, incAbs: string, ghost before: seq<City>)
      requires parent.Valid() && |parent.cities| == |before| + 1 && parent.cities[..|before|] == before
      requires Indexes(before) && slug !in byslug && parent.cities[|before|].slug == slug
      modifies this
      ensures Indexes(parent.cities) && fromInclude == old(fromInclude)[slug := incAbs]
    {
      IndexedAppend(byslug, before, parent.cities);
      byslug, fromInclude := byslug[slug := |parent.cells| - 1], fromInclude[slug := incAbs];
    }
  }

  // ------------------------------------------------------------------- merge

  /** Merging reads only the child's top level and the city at hand. */
  lemma MergeReadsTopLevel(acc: Acc, child: Config, other: Config, src: City, incAbs: string, env: Option<real>,
                           id: Identity)
    requires other == child.(cities := other.cities)
    ensures MergeCity(acc, child, src, incAbs, env, id) == MergeCity(acc, other, src, incAbs, env, id)
  {
    hide ForecastConflicts, UnionForecast, GridConflicts, ApplyCity, IndexOf, SourceOf;
  }

  lemma {:induction false} MergeCitiesPrefix(acc: Acc, child: Config, k: nat, n: nat, incAbs: string, env: Option<real>,
                                             id: Identity)
    requires k <= n <= |child.cities| && MergeCities(acc, child, n, incAbs, env, id).Ok?
    ensures MergeCities(acc, child, k, incAbs, env, id).Ok?
  {
    if k < n {
      MergeCitiesPrefix(acc, child, k, n - 1, incAbs, env, id);
    }
  }

  /** One iteration of mergeIncludedCities. */
  method MergeOneCity(parent: LoadedConfig, ms: MergeState, child: Config, src: City, incAbs: string, env: Option<real>,
                      id: Identity, warnings: seq<Warning>) returns (ok: bool, sink: seq<Warning>)
    requires parent.Valid() && ms.Indexes(parent.cities)
    modifies parent, parent.blocks, ms
    ensures parent.Valid() && fresh(parent.blocks - old(parent.blocks)) && ms.Indexes(parent.cities)
    ensures var merged := MergeCity(Acc(old(parent.cities), old(ms.fromInclude), warnings), child, src, incAbs, env,
                                    id);
            ok == merged.Ok? && (ok ==> merged.value == Acc(parent.cities, ms.fromInclude, sink))
  {
    hide MergeExisting, MergeNew, MergeConflicts;
    ok, sink := true, warnings;
    ms.Finds(parent.cities, src.slug);
    if src.slug in ms.byslug {
      var i := ms.byslug[src.slug];
      assert parent.Holds(parent.cells[i], parent.cities[i]);
      if parent.cells[i].facts.name != src.name {
        ok := false;
      } else if src.slug in ms.fromInclude {
        ghost var before := parent.cities;
        var fields := parent.MergeExistingCity(i, child, src, env, id);
        MergeKeepsName(before[i], child, src, env, id);
        ms.StillIndexes(before, parent.cities);
        if fields != [] {
          sink := sink + [Warning(src.slug, ms.fromInclude[src.slug], incAbs, fields)];
        }
      }
    } else {
      ghost var before := parent.cities;
      parent.AppendCity(child, src, env, id);
      MergeNewKeepsName(child, src, env, id);
      ms.Record(parent, src.slug, incAbs, before);
    }
  }

  lemma MergeKeepsName(existing: City, child: Config, src: City, env: Option<real>, id: Identity)
    ensures var m := MergeExisting(existing, child, src, env, id); m.slug == existing.slug && m.name == existing.name
  {
  }

  lemma MergeNewKeepsName(child: Config, src: City, env: Option<real>, id: Identity)
    ensures var m := MergeNew(child, src, env, id); m.slug == src.slug && m.name == src.name
  {
  }

  lemma MergeClashes(acc: Acc, child: Config, incAbs: string, env: Option<real>, id: Identity)
    ensures DistinctSlugs(acc.cities) && DistinctSlugs(child.cities) ==>
              (MergeCities(acc, child, |child.cities|, incAbs, env, id).Ok? <==> !SlugClash(acc.cities, child.cities))
  {
    if DistinctSlugs(acc.cities) && DistinctSlugs(child.cities) {
      MergeFailsIff(acc, child, incAbs, env, id);
    }
  }

  /** mergeIncludedCities: the parent and its bookkeeping change, the child does not. */
  method MergeIncludedCities(parent: LoadedConfig, ms: MergeState, child: LoadedConfig, incAbs: string,
                             env: Option<real>, id: Identity, warnings: seq<Warning>)
    returns (ok: bool, sink: seq<Warning>)
    requires parent.Valid() && ms.Indexes(parent.cities) && child.Valid() && parent != child &&
             parent.blocks !! child.blocks
    modifies parent, parent.blocks, ms
    ensures ok ==> parent.Valid() && fresh(parent.blocks - old(parent.blocks)) && ms.Indexes(parent.cities)
    ensures var merged := MergeCities(Acc(old(parent.cities), old(ms.fromInclude), warnings), child.Value(),
                                      |child.cities|, incAbs, env, id);
            ok == merged.Ok? && (ok ==> merged.value == Acc(parent.cities, ms.fromInclude, sink))
    ensures DistinctSlugs(old(parent.cities)) && DistinctSlugs(child.cities) ==>
              (ok <==> !SlugClash(old(parent.cities), child.cities))
  {
    hide MergeCity, DistinctSlugs, SlugClash, IndexOf;
    sink := warnings;
    ghost var start := Acc(parent.cities, ms.fromInclude, warnings);
    ghost var value := child.Value();
    MergeClashes(start, value, incAbs, env, id);
    for k := 0 to |child.cells|
      invariant parent.Valid() && fresh(parent.blocks - old(parent.blocks)) && ms.Indexes(parent.cities)
      invariant child.Valid() && child.Value() == value
      invariant MergeCities(start, value, k, incAbs, env, id) == Ok(Acc(parent.cities, ms.fromInclude, sink))
    {
      assert child.Holds(child.cells[k], child.cities[k]);
      var src := child.cells[k].Read();
      MergeReadsTopLevel(Acc(parent.cities, ms.fromInclude, sink), child.file, value, src, incAbs, env, id);
      ok, sink := MergeOneCity(parent, ms, child.file, src, incAbs, env, id, sink);
      if !ok {
        if MergeCities(start, value, |value.cities|, incAbs, env, id).Ok? {
          MergeCitiesPrefix(start, value, k + 1, |value.cities|, incAbs, env, id);
        }
        return;
      }
    }
    ok := true;
  }

  // ---------------------------------------------------------------- warnings

  /** The warnings in the sink that one file's merging raised, in order. */
  ghost function RaisedIn(sink: seq<Warning>, raisers: seq<Path>, p: Path): seq<Warning>
    requires |sink| == |raisers|
  {
    if sink == [] then []
    else
      var n := |sink| - 1;
      RaisedIn(sink[..n], raisers[..n], p) + if raisers[n] == p then [sink[n]] else []
  }

  lemma {:induction false} RaisedMore(sink: seq<Warning>, raisers: seq<Path>, more: seq<Warning>, a: Path, p: Path)
    requires |sink| == |raisers|
    ensures var after := RaisedIn(sink + more, raisers + seq(|more|, _ => a), p);
            after == if p == a then RaisedIn(sink, raisers, p) + more else RaisedIn(sink, raisers, p)
  {
    var all, names := sink + more, raisers + seq(|more|, _ => a);
    if more == [] {
      assert all == sink && names == raisers;
    } else {
      var n := |more| - 1;
      RaisedMore(sink, raisers, more[..n], a, p);
      assert all[..|all| - 1] == sink + more[..n];
      assert names[..|all| - 1] == raisers + seq(n, _ => a);
      assert more == more[..n] + [more[n]];
    }
  }

  /** Earlier warnings do not affect a merge; it appends its own. */
  lemma {:induction false} MergeAppendsWarnings(cities: seq<City>, from: map<string, string>, mine: seq<Warning>,
                                                child: Config, n: nat, incAbs: string, env: Option<real>, id: Identity)
    requires n <= |child.cities|
    ensures var bare := MergeCities(Acc(cities, from, []), child, n, incAbs, env, id);
            MergeCities(Acc(cities, from, mine), child, n, incAbs, env, id) ==
              if bare.Err? then Err else Ok(bare.value.(warnings := mine + bare.value.warnings))
  {
    hide MergeCity;
    assert mine + [] == mine;
    if n > 0 {
      MergeAppendsWarnings(cities, from, mine, child, n - 1, incAbs, env, id);
      var before := MergeCities(Acc(cities, from, []), child, n - 1, incAbs, env, id);
      if before.Ok? {
        MergeOneAppends(before.value, mine, child, child.cities[n - 1], incAbs, env, id);
      }
    }
  }

  lemma MergeOneAppends(acc: Acc, mine: seq<Warning>, child: Config, src: City, incAbs: string, env: Option<real>,
                        id: Identity)
    ensures var bare := MergeCity(acc, child, src, incAbs, env, id);
            MergeCity(acc.(warnings := mine + acc.warnings), child, src, incAbs, env, id) ==
              if bare.Err? then Err else Ok(bare.value.(warnings := mine + bare.value.warnings))
  {
    hide MergeExisting, MergeNew, MergeConflicts, IndexOf;
    forall w: Warning
      ensures mine + acc.warnings + [w] == mine + (acc.warnings + [w])
    {
    }
  }

  /** The disagreements a file's own includes raise, by plain recursion. */
  ghost predicate Raises(w: World, p: Path, ws: seq<Warning>) {
    && p in w.files
    && exists part: Partial ::
         part.acc.warnings == ws && PartlyResolved(w, w.files[p], |w.files[p].config.includes|, part)
  }

  /** The sink holds, for each resolved file, exactly the warnings its own merging raises, once. */
  ghost predicate Sunk(w: World, done: set<Path>, parsed: seq<Path>, sink: seq<Warning>, raisers: seq<Path>) {
    && |sink| == |raisers|
    && (forall p :: p in done ==> Raises(w, p, RaisedIn(sink, raisers, p)))
    && (forall p :: p !in parsed ==> RaisedIn(sink, raisers, p) == [])
  }

  // -------------------------------------------------------------- the loader

  ghost predicate Once(s: seq<Path>) {
    forall i, j :: 0 <= i < j < |s| ==> s[i] != s[j]
  }

  datatype Entry = Entry(cfg: LoadedConfig, blobs: seq<string>)

  class Loader {
    const w: World
    var cache: map<Path, Entry>
    var ancestors: set<Path>
    var warnings: seq<Warning>
    ghost var raisers: seq<Path>
    ghost var parsed: seq<Path>
    ghost var repr: set<object>

    constructor (w: World)
      requires ValidWorld(w)
      ensures this.w == w && Valid() && ancestors == {} && cache == map[] && parsed == [] && warnings == []
      ensures repr == {}
    {
      this.w := w;
      cache, ancestors, warnings, raisers, parsed, repr := map[], {}, [], [], [], {};
    }

    /** A cached config is what plain recursion gives, and nothing being assembled reaches into it. */
    ghost predicate Cached(p: Path, e: Entry)
      reads this, repr
    {
      && e.cfg in repr && e.cfg.blocks <= repr
      && e.cfg.Valid() && Resolves(w, p, Resolved(e.cfg.Value(), e.blobs))
    }

    /** Every file parsed so far was parsed once, and is either cached or still being resolved. */
    ghost predicate Tracked()
      reads this
    {
      && Once(parsed) && cache.Keys !! ancestors
      && (forall p :: p in parsed <==> p in cache || p in ancestors)
    }

    ghost predicate Valid()
      reads this, repr
    {
      && ValidWorld(w) && this !in repr
      && (forall p :: p in cache ==> Cached(p, cache[p]))
      && Tracked() && Sunk(w, cache.Keys, parsed, warnings, raisers)
    }

    ghost function Parsed(): set<Path>
      reads this
    {
      set p | p in parsed
    }

    /** A parent under assembly, apart from everything cached, after its first i includes. */
    ghost predicate Building(abs: Path, i: nat, cfg: LoadedConfig, ms: MergeState, blobs: seq<string>)
      reads this, cfg, cfg.blocks, ms
    {
      && abs in w.files && abs in ancestors && abs in parsed
      && cfg.Valid() && cfg.file == w.files[abs].config && ms.Indexes(cfg.cities)
      && cfg !in repr && cfg.blocks !! repr && ms !in repr
      && |warnings| == |raisers|
      && PartlyResolved(w, w.files[abs], i, Partial(Acc(cfg.cities, ms.fromInclude, RaisedIn(warnings, raisers, abs)),
                                                    blobs))
    }

    /** Every entry of the earlier cache is still there, the same object, and the settled files'
        warnings have not changed. */
    ghost predicate Grown(cache0: map<Path, Entry>, settled: set<Path>, warnings0: seq<Warning>, raisers0: seq<Path>)
      reads this
    {
      && (forall p :: p in cache0 ==> p in cache && cache[p] == cache0[p])
      && |warnings0| == |raisers0| && |warnings| == |raisers|
      && (forall p :: p in settled ==>
            p in parsed && RaisedIn(warnings, raisers, p) == RaisedIn(warnings0, raisers0, p))
    }

    /** loadResolved. Success gives plain recursion's result; when plain recursion fits under the
        depth cap it does succeed; and it changes no object that existed before but the loader. */
    method LoadResolved(abs: Path, depth: nat) returns (r: Result<Entry>)
      requires Valid() && depth <= MaxIncludeDepth + 1
      modifies this
      ensures fresh(repr - old(repr)) && old(repr) <= repr
      ensures r.Ok? ==> Valid() && ancestors == old(ancestors) && abs in cache && cache[abs] == r.value
      ensures r.Ok? ==> Grown(old(cache), old(Parsed()), old(warnings), old(raisers))
      ensures Promised(w, abs, depth, old(ancestors)) ==> r.Ok?
      decreases MaxIncludeDepth + 1 - depth, 2
    {
      hide Raises, Resolves, Fits, Taller, RaisedIn, PartlyResolved, Promised, Sunk, ValidFile, ValidWorld;
      hide LoadedConfig.Valid, MergeState.Indexes, Building, Cached, Tracked;
      if abs in cache {
        SunkAligned(w, cache.Keys, parsed, warnings, raisers);
        return Ok(cache[abs]);
      }
      if depth > MaxIncludeDepth || abs in ancestors || abs !in w.files {
        Unpromised(w, abs, depth, ancestors);
        return Err;
      }
      var cfg, ms, blobs := Parse(abs);
      var all := ResolveIncludes(abs, depth, cfg, ms, blobs);
      if all.Err? {
        ancestors := ancestors - {abs};
        return Err;
      }
      Store(abs, cfg, ms, all.value);
      r := Ok(Entry(cfg, all.value));
    }

    /** The include loop of loadResolved. */
    method ResolveIncludes(abs: Path, depth: nat, cfg: LoadedConfig, ms: MergeState, own: seq<string>)
      returns (r: Result<seq<string>>)
      requires Valid() && depth <= MaxIncludeDepth && Building(abs, 0, cfg, ms, own)
      modifies this, cfg, cfg.blocks, ms
      ensures fresh(repr - old(repr)) && old(repr) <= repr
      ensures r.Ok? ==> Valid() && ancestors == old(ancestors) && fresh(cfg.blocks - old(cfg.blocks))
      ensures r.Ok? ==> Building(abs, |w.files[abs].config.includes|, cfg, ms, r.value)
      ensures r.Ok? ==> Grown(old(cache), old(Parsed()) - {abs}, old(warnings), old(raisers))
      ensures Promised(w, abs, depth, old(ancestors) - {abs}) ==> r.Ok?
      decreases MaxIncludeDepth + 1 - depth, 1
    {
      hide Raises, Resolves, Fits, Taller, RaisedIn, PartlyResolved, Promised, Sunk, ValidFile, ValidWorld;
      hide LoadedConfig.Valid, MergeState.Indexes, Cached, Tracked;
      ghost var settled := Parsed() - {abs};
      var blobs := own;
      for i := 0 to |w.files[abs].config.includes|
        invariant Valid() && ancestors == old(ancestors)
        invariant fresh(repr - old(repr)) && old(repr) <= repr
        invariant fresh(cfg.blocks - old(cfg.blocks)) && Building(abs, i, cfg, ms, blobs)
        invariant Grown(old(cache), settled, old(warnings), old(raisers))
      {
        var childBlobs := ResolveOneInclude(abs, i, depth, cfg, ms, blobs);
        if childBlobs.Err? {
          return Err;
        }
        blobs := blobs + childBlobs.value;
      }
      r := Ok(blobs);
    }

    /** The start of loadResolved: parses the file and begins its parent. */
    method Parse(abs: Path) returns (cfg: LoadedConfig, ms: MergeState, blobs: seq<string>)
      requires Valid() && abs in w.files && abs !in cache && abs !in ancestors
      modifies this`ancestors, this`parsed
      ensures Valid() && ancestors == old(ancestors) + {abs} && parsed == old(parsed) + [abs] && abs !in old(parsed)
      ensures fresh(cfg) && fresh(ms) && fresh(cfg.blocks) && Building(abs, 0, cfg, ms, blobs)
    {
      hide Raises, Resolves, RaisedIn, PartlyResolved, Sunk, ValidWorld;
      hide LoadedConfig.Valid, MergeState.Indexes;
      Starting(w, abs, cache.Keys, parsed, warnings, raisers);
      SunkAligned(w, cache.Keys, parsed, warnings, raisers);
      ancestors := ancestors + {abs};
      parsed := parsed + [abs];
      var f := w.files[abs];
      cfg := new LoadedConfig(f.config);
      ms := new MergeState(cfg);
      blobs := [f.blob];
      PlainStart(w, f);
    }

    /** The end of loadResolved: the assembled parent enters the cache. */
    method Store(abs: Path, cfg: LoadedConfig, ghost ms: MergeState, blobs: seq<string>)
      requires Valid() && abs in w.files && Building(abs, |w.files[abs].config.includes|, cfg, ms, blobs)
      modifies this`cache, this`ancestors, this`repr
      ensures Valid() && cache == old(cache)[abs := Entry(cfg, blobs)] && ancestors == old(ancestors) - {abs}
      ensures repr == old(repr) + {cfg} + cfg.blocks
    {
      hide Raises, Resolves, RaisedIn, PartlyResolved, ValidWorld;
      hide LoadedConfig.Valid, MergeState.Indexes, MergeCities;
      Finished(w, abs, Partial(Acc(cfg.cities, ms.fromInclude, RaisedIn(warnings, raisers, abs)), blobs));
      cache := cache[abs := Entry(cfg, blobs)];
      ancestors := ancestors - {abs};
      repr := repr + {cfg} + cfg.blocks;
    }

    /** resolveOneInclude: resolves include i of the parent at abs and merges its cities in. */
    method ResolveOneInclude(abs: Path, i: nat, depth: nat, cfg: LoadedConfig, ms: MergeState, blobs: seq<string>)
      returns (r: Result<seq<string>>)
      requires Valid() && depth <= MaxIncludeDepth
      requires Building(abs, i, cfg, ms, blobs) && i < |w.files[abs].config.includes|
      modifies this, cfg, cfg.blocks, ms
      ensures fresh(repr - old(repr)) && old(repr) <= repr
      ensures r.Ok? ==> Valid() && ancestors == old(ancestors)
      ensures r.Ok? ==> fresh(cfg.blocks - old(cfg.blocks)) && Building(abs, i + 1, cfg, ms, blobs + r.value)
      ensures r.Ok? ==> Grown(old(cache), old(Parsed()) - {abs}, old(warnings), old(raisers))
      ensures Promised(w, abs, depth, old(ancestors) - {abs}) ==> r.Ok?
      decreases MaxIncludeDepth + 1 - depth, 0
    {
      hide Raises, Resolves, Fits, Taller, RaisedIn, PartlyResolved, FoldInclude, MergeCities, Sunk, ValidWorld;
      hide LoadedConfig.Valid, MergeState.Indexes, Cached, Tracked;
      var incAbs := w.files[abs].config.includes[i].path;
      if incAbs == "" {
        PromisedPath(w, abs, i, depth, ancestors);
        return Err;
      }
      PromisedChild(w, abs, i, depth, ancestors);
      var loaded := LoadResolved(incAbs, depth + 1);
      if loaded.Err? {
        return Err;
      }
      var ok := MergeChild(abs, i, depth, cfg, ms, blobs, loaded.value);
      if !ok {
        return Err;
      }
      r := Ok(loaded.value.blobs);
    }

    /** The rest of resolveOneInclude: merges a resolved include into its parent. */
    method MergeChild(abs: Path, i: nat, depth: nat, cfg: LoadedConfig, ms: MergeState, blobs: seq<string>,
                      child: Entry)
      returns (ok: bool)
      requires Valid() && Building(abs, i, cfg, ms, blobs) && i < |w.files[abs].config.includes|
      requires w.files[abs].config.includes[i].path != "" && Cached(w.files[abs].config.includes[i].path, child)
      modifies this`warnings, this`raisers, cfg, cfg.blocks, ms
      ensures ok ==> Valid() && fresh(cfg.blocks - old(cfg.blocks))
      ensures ok ==> Building(abs, i + 1, cfg, ms, blobs + child.blobs)
      ensures ok ==> Grown(cache, Parsed() - {abs}, old(warnings), old(raisers))
      ensures Fits(w, abs, depth) ==> ok
    {
      hide Raises, Resolves, Fits, RaisedIn, PartlyResolved, FoldInclude, MergeCities, Sunk, ValidWorld;
      hide LoadedConfig.Valid, MergeState.Indexes;
      var incAbs := w.files[abs].config.includes[i].path;
      ghost var start := Acc(cfg.cities, ms.fromInclude, RaisedIn(warnings, raisers, abs));
      ghost var value := Resolved(child.cfg.Value(), child.blobs);
      var id := SourceIdentity(w, child.cfg.file, incAbs, child.blobs);
      var raised;
      ok, raised := MergeIncludedCities(cfg, ms, child.cfg, incAbs, w.env, id, []);
      FoldStep(w, w.files[abs], abs, i, depth, start, blobs, value);
      if ok {
        SunkMore(w, cache.Keys, parsed, warnings, raisers, raised, abs);
        warnings, raisers := warnings + raised, raisers + seq(|raised|, _ => abs);
      }
    }
  }

  // ------------------------------------------------------ steps of the loader

  /** The depth cap and the ancestors do not stop plain recursion from this file. */
  ghost predicate Promised(w: World, abs: Path, depth: nat, above: set<Path>) {
    Fits(w, abs, depth) && forall a :: a in above ==> Taller(w, a, abs)
  }

  lemma Unpromised(w: World, abs: Path, depth: nat, above: set<Path>)
    requires depth > MaxIncludeDepth || abs in above || abs !in w.files
    ensures !Promised(w, abs, depth, above)
  {
  }

  lemma PromisedPath(w: World, abs: Path, i: nat, depth: nat, above: set<Path>)
    requires abs in w.files && i < |w.files[abs].config.includes| && w.files[abs].config.includes[i].path == ""
    ensures !Promised(w, abs, depth, above - {abs})
  {
    if Promised(w, abs, depth, above - {abs}) {
      PromisedInclude(w, abs, i, depth);
    }
  }

  lemma PromisedChild(w: World, abs: Path, i: nat, depth: nat, above: set<Path>)
    requires abs in w.files && i < |w.files[abs].config.includes| && abs in above
    ensures Promised(w, abs, depth, above - {abs}) ==>
            Promised(w, w.files[abs].config.includes[i].path, depth + 1, above)
  {
    if Promised(w, abs, depth, above - {abs}) {
      assert Includes(w, abs, w.files[abs].config.includes[i].path);
      IncludedFits(w, abs, w.files[abs].config.includes[i].path, depth, above - {abs});
      assert above - {abs} + {abs} == above;
    }
  }

  /** Merging a resolved include is plain recursion's next step, and fails only where it does. */
  lemma FoldStep(w: World, f: File, abs: Path, i: nat, depth: nat, start: Acc, blobs: seq<string>, child: Resolved)
    requires abs in w.files && f == w.files[abs] && i < |f.config.includes| && f.config.includes[i].path != ""
    requires PartlyResolved(w, f, i, Partial(start, blobs)) && Resolves(w, f.config.includes[i].path, child)
    ensures var incAbs := f.config.includes[i].path;
            var bare := MergeCities(start.(warnings := []), child.config, |child.config.cities|, incAbs, w.env,
                                    SourceIdentity(w, child.config, incAbs, child.blobs));
            && (bare.Err? ==> !Fits(w, abs, depth))
            && (bare.Ok? ==> PartlyResolved(w, f, i + 1,
                                            Partial(bare.value.(warnings := start.warnings + bare.value.warnings),
                                                               blobs + child.blobs)))
  {
    hide MergeCities, PartlyResolved, Resolves, Fits;
    var incAbs := f.config.includes[i].path;
    MergeAppendsWarnings(start.cities, start.fromInclude, start.warnings, child.config, |child.config.cities|, incAbs,
                         w.env, SourceIdentity(w, child.config, incAbs, child.blobs));
    PlainNext(w, f, i, Partial(start, blobs), child);
    if Fits(w, abs, depth) {
      PromisedFold(w, abs, i, depth, Partial(start, blobs), child);
    }
  }

  lemma Starting(w: World, abs: Path, done: set<Path>, parsed: seq<Path>, sink: seq<Warning>, raisers: seq<Path>)
    requires ValidWorld(w) && abs in w.files && abs !in parsed && Sunk(w, done, parsed, sink, raisers)
    ensures DistinctSlugs(w.files[abs].config.cities) && Sunk(w, done, parsed + [abs], sink, raisers)
    ensures RaisedIn(sink, raisers, abs) == []
  {
    assert ValidFile(w.files[abs].config);
  }

  lemma SunkAligned(w: World, done: set<Path>, parsed: seq<Path>, sink: seq<Warning>, raisers: seq<Path>)
    requires Sunk(w, done, parsed, sink, raisers)
    ensures |sink| == |raisers|
  {
  }

  lemma Finished(w: World, abs: Path, part: Partial)
    requires abs in w.files && PartlyResolved(w, w.files[abs], |w.files[abs].config.includes|, part)
    ensures Resolves(w, abs, Finish(w.files[abs], part)) && Raises(w, abs, part.acc.warnings)
  {
    hide PartlyResolved, Resolves;
    PlainEnd(w, abs, part);
  }

  lemma SunkMore(w: World, done: set<Path>, parsed: seq<Path>, sink: seq<Warning>, raisers: seq<Path>,
                 more: seq<Warning>, a: Path)
    requires Sunk(w, done, parsed, sink, raisers) && a !in done && a in parsed
    ensures var sink', raisers' := sink + more, raisers + seq(|more|, _ => a);
            && Sunk(w, done, parsed, sink', raisers')
            && (forall p :: RaisedIn(sink', raisers', p) ==
                            if p == a then RaisedIn(sink, raisers, p) + more else RaisedIn(sink, raisers, p))
  {
    hide RaisedIn, Raises;
    forall p
      ensures RaisedIn(sink + more, raisers + seq(|more|, _ => a), p) ==
              if p == a then RaisedIn(sink, raisers, p) + more else RaisedIn(sink, raisers, p)
    {
      RaisedMore(sink, raisers, more, a, p);
    }
  }

  // -------------------------------------------------------------------- Load

  /** What Load returns: the merged config, its identity, and the warnings. */
  datatype Loaded = Loaded(cfg: LoadedConfig, identity: Identity, warnings: seq<Warning>)

  /** Load: each file's warnings are those its own merging raises, the root's result is plain recursion's,
      its identity is its config id, else its path's hash, with the hash of all bytes in reach, and the
      includes reachable from it are acyclic. What loads is readable wherever its includes reach, gives no
      slug two names and declares a city; all of that loads that nests at most 33 files deep. */
  method Load(w: World, abs: Path) returns (r: Result<Loaded>, ghost raisers: seq<Path>)
    requires ValidWorld(w)
    ensures r.Ok? ==>
              exists res: Resolved :: Resolves(w, abs, res) && res.config == r.value.cfg.Value() &&
                                      r.value.identity.hash == w.hashBlobs(res.blobs)
    ensures r.Ok? ==>
              abs in w.files && r.value.identity.configID ==
                if w.files[abs].config.configID == "" then w.hashPath(abs) else w.files[abs].config.configID
    ensures r.Ok? ==> Acyclic(w, abs)
    ensures r.Ok? ==>
              && |r.value.warnings| == |raisers| && Raises(w, abs, RaisedIn(r.value.warnings, raisers, abs))
              && forall p ::
                   RaisedIn(r.value.warnings, raisers, p) == [] || Raises(w, p, RaisedIn(r.value.warnings, raisers, p))
    ensures r.Ok? ==> OneName(w, abs) && DeclaresSome(w, abs) && exists n: nat :: AllReadable(w, abs, n)
    ensures AllReadable(w, abs, 33) && OneName(w, abs) && DeclaresSome(w, abs) ==> r.Ok?
  {
    hide Resolves, Taller, Raises, RaisedIn, AllReadable, OneName, DeclaresSome;
    raisers := [];
    var loader := new Loader(w);
    var loaded := loader.LoadResolved(abs, 0);
    ResolvesIff(w, abs, MaxIncludeDepth + 1);
    if loaded.Err? {
      return Err, [];
    }
    var e := loaded.value;
    assert loader.Cached(abs, e);
    ghost var res := Resolved(e.cfg.Value(), e.blobs);
    RootIsAcyclic(w, abs, res);
    RootLoads(w, abs, res);
    assert |e.cfg.cells| == |e.cfg.cities|;
    if |e.cfg.cells| == 0 {
      return Err, [];
    }
    raisers := loader.raisers;
    r := Ok(Loaded(e.cfg, SourceIdentity(w, e.cfg.file, abs, e.blobs), loader.warnings));
  }

  /** No chain of includes from the root meets the same file twice. */
  ghost predicate Acyclic(w: World, root: Path) {
    forall chain: seq<Path> :: |chain| > 0 && chain[0] == root && IncludeChain(w, chain) ==> Once(chain)
  }

  lemma RootIsAcyclic(w: World, root: Path, r: Resolved)
    requires Resolves(w, root, r)
    ensures Acyclic(w, root)
  {
    forall chain: seq<Path> | |chain| > 0 && chain[0] == root && IncludeChain(w, chain)
      ensures Once(chain)
    {
      ResolvedIsAcyclic(w, root, r, chain);
    }
  }

  /** Some file in reach of the root declares a city. */
  ghost predicate DeclaresSome(w: World, root: Path) {
    exists slug, name :: Named(w, root, slug, name)
  }

  lemma RootLoads(w: World, root: Path, r: Resolved)
    requires ValidWorld(w) && Resolves(w, root, r)
    ensures OneName(w, root) && exists n: nat :: AllReadable(w, root, n)
    ensures r.config.cities != [] <==> DeclaresSome(w, root)
    ensures root in w.files && r.config.configID == w.files[root].config.configID
  {
    hide OneName, AllReadable, Named, Held;
    var n: nat :| Plain(w, root, n) == Ok(r);
    ResolvesIff(w, root, n);
    if r.config.cities != [] {
      var c := r.config.cities[0];
      HeldBy(r.config.cities, 0);
      ResolvedHeld(w, root, n, c.slug, c.name);
    }
    if slug, name :| Named(w, root, slug, name) {
      ResolvedHeld(w, root, n, slug, name);
      var k := HeldAt(r.config.cities, slug, name);
    }
  }
}
