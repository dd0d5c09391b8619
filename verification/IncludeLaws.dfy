/** What include resolution means for a city, internal/config/include.go: at any nesting it is the
    fold, in depth-first declaration order, of what the reachable files declare about its slug. */
module IncludeLaws {
  import opened IncludeConfig
  import opened IncludeMerge
  import opened IncludePlain

  /** What one declaration says of a city: its name, each forecast field it states, the grid pair, and the
      file whose stored data goes with that pair. */
  datatype Said = Said(name: string, stated: Stated, edge: real, area: real, source: Identity, srcEdge: real)

  function View(c: City): Said {
    Said(c.name, SaysOpt(c.forecast), c.hexEdge, c.minHexArea, Identity(c.srcID, c.srcHash), c.srcEdge)
  }

  /** What a city of a config says, seen through the config; a stamp it already has is kept. */
  function Through(w: World, config: Config, c: City, id: Identity): Said {
    Said(c.name, SaysOpt(EffectiveForecast(config, c)), EffectiveHexEdge(config, c), EffectiveMinHexArea(config, c),
         SourceOf(c, id), if c.srcEdge == 0.0 then ResolvedHexEdge(config, c, w.env) else c.srcEdge)
  }

  /** The earlier declaration wins each forecast field it states; the grid pair, its source and its
      edge move together, to the later one only when the earlier states no grid. */
  function Combine(a: Said, b: Said): Said {
    if StatesGrid(b.edge, b.area) && !StatesGrid(a.edge, a.area)
    then b.(stated := FirstSaid(a.stated, b.stated))
    else a.(stated := FirstSaid(a.stated, b.stated))
  }

  function Fold(cs: seq<Said>): Said
    requires cs != []
  {
    if |cs| == 1 then cs[0] else Combine(Fold(cs[..|cs| - 1]), cs[|cs| - 1])
  }

  lemma CombineAssociative(a: Said, b: Said, c: Said)
    ensures Combine(Combine(a, b), c) == Combine(a, Combine(b, c))
  {
    hide FirstSaid;
    FirstSaidAssociative(a.stated, b.stated, c.stated);
  }

  lemma {:induction false} FoldJoin(a: seq<Said>, b: seq<Said>)
    requires a != [] && b != []
    ensures Fold(a + b) == Combine(Fold(a), Fold(b))
  {
    hide Combine;
    var n := |b| - 1;
    assert (a + b)[..|a + b| - 1] == a + b[..n];
    if n > 0 {
      FoldJoin(a, b[..n]);
      CombineAssociative(Fold(a), Fold(b[..n]), b[n]);
    } else {
      assert a + b[..0] == a;
    }
  }

  // ------------------------------------------------------------- statements

  /** What the files reachable from path declare of a slug, in depth-first declaration order. A file
      that declares the city itself is a local override: its includes are not consulted. */
  function Statements(w: World, path: Path, slug: string, n: nat): seq<Said>
    requires Plain(w, path, n).Ok?
    decreases n, 1, 0
  {
    var f := w.files[path];
    var i := IndexOf(f.config.cities, slug);
    if i < |f.config.cities| then
      [Through(w, f.config, f.config.cities[i], SourceIdentity(w, f.config, path, Plain(w, path, n).value.blobs))]
    else
      FromIncludes(w, f, slug, |f.config.includes|, n)
  }

  function FromIncludes(w: World, f: File, slug: string, i: nat, fuel: nat): seq<Said>
    requires i <= |f.config.includes| && PlainIncludes(w, f, i, fuel).Ok?
    decreases fuel, 0, i
  {
    if i == 0 then []
    else FromIncludes(w, f, slug, i - 1, fuel) + Statements(w, f.config.includes[i - 1].path, slug, fuel - 1)
  }

  // ----------------------------------------------------------------- lookup

  function Lookup(cities: seq<City>, slug: string): Option<City> {
    var i := IndexOf(cities, slug);
    if i < |cities| then Some(cities[i]) else None
  }

  lemma {:induction false} IndexOfAppend(cities: seq<City>, c: City, slug: string)
    ensures var i := IndexOf(cities, slug);
            IndexOf(cities + [c], slug) == if i < |cities| || c.slug == slug then i else |cities| + 1
  {
    if cities != [] {
      assert (cities + [c])[1..] == cities[1..] + [c];
      IndexOfAppend(cities[1..], c, slug);
    }
  }

  lemma {:induction false} IndexOfUpdate(cities: seq<City>, i: nat, c: City, slug: string)
    requires i < |cities| && c.slug == cities[i].slug
    ensures IndexOf(cities[i := c], slug) == IndexOf(cities, slug)
  {
    if i > 0 {
      assert cities[i := c][1..] == cities[1..][i - 1 := c];
      IndexOfUpdate(cities[1..], i - 1, c, slug);
    } else {
      assert cities[0 := c][1..] == cities[1..];
    }
  }

  /** What one step does to the city of its slug. */
  function Fated(prev: Option<City>, viaInclude: bool, child: Config, src: City, env: Option<real>,
                 id: Identity): City {
    if prev.None? then MergeNew(child, src, env, id)
    else if viaInclude then MergeExisting(prev.value, child, src, env, id)
    else prev.value
  }

  /** A slug already held keeps its name. */
  predicate NoClash(held: Option<City>, src: City) {
    held.Some? ==> held.value.name == src.name
  }

  /** The include a slug is credited to is the first that contributed it. */
  ghost predicate KeepsCredit(acc: Acc, after: Acc, slug: string, incAbs: string) {
    slug in after.fromInclude ==>
      after.fromInclude[slug] ==
      if slug in acc.fromInclude && (Lookup(acc.cities, slug).Some? || Lookup(after.cities, slug).None?)
      then acc.fromInclude[slug] else incAbs
  }

  lemma MergeCityLookup(acc: Acc, child: Config, src: City, incAbs: string, env: Option<real>, id: Identity,
                        slug: string)
    requires MergeCity(acc, child, src, incAbs, env, id).Ok?
    ensures var after := MergeCity(acc, child, src, incAbs, env, id).value;
            && Lookup(after.cities, slug) ==
                 (if slug == src.slug then Some(Fated(Lookup(acc.cities, slug), slug in acc.fromInclude, child, src,
                                                      env, id))
                  else Lookup(acc.cities, slug))
            && (slug in after.fromInclude <==>
                slug in acc.fromInclude || (slug == src.slug && Lookup(acc.cities, slug).None?))
            && KeepsCredit(acc, after, slug, incAbs)
    ensures slug == src.slug ==> NoClash(Lookup(acc.cities, slug), src)
  {
    hide MergeNew, MergeExisting, MergeConflicts;
    var i := IndexOf(acc.cities, src.slug);
    if i == |acc.cities| {
      MergeNewKeepsSlug(child, src, env, id);
      IndexOfAppend(acc.cities, MergeNew(child, src, env, id), slug);
    } else {
      MergeExistingKeepsSlug(acc.cities[i], child, src, env, id);
      IndexOfUpdate(acc.cities, i, MergeExisting(acc.cities[i], child, src, env, id), slug);
    }
  }

  lemma MergeNewKeepsSlug(child: Config, src: City, env: Option<real>, id: Identity)
    ensures MergeNew(child, src, env, id).slug == src.slug
  {
  }

  lemma MergeExistingKeepsSlug(existing: City, child: Config, src: City, env: Option<real>, id: Identity)
    ensures MergeExisting(existing, child, src, env, id).slug == existing.slug
  {
  }

  /** Merging a whole child touches a slug at most once. */
  lemma {:induction false} MergeCitiesLookup(acc: Acc, child: Config, n: nat, incAbs: string, env: Option<real>,
                                             id: Identity, slug: string)
    requires n <= |child.cities| && DistinctSlugs(child.cities) && MergeCities(acc, child, n, incAbs, env, id).Ok?
    ensures var after := MergeCities(acc, child, n, incAbs, env, id).value;
            var k := IndexOf(child.cities, slug);
            && Lookup(after.cities, slug) ==
                 (if k < n then Some(Fated(Lookup(acc.cities, slug), slug in acc.fromInclude, child, child.cities[k],
                                           env, id))
                  else Lookup(acc.cities, slug))
            && (slug in after.fromInclude <==> slug in acc.fromInclude || (k < n && Lookup(acc.cities, slug).None?))
            && KeepsCredit(acc, after, slug, incAbs)
            && (k < n ==> NoClash(Lookup(acc.cities, slug), child.cities[k]))
  {
    hide MergeCity, Fated, Lookup;
    if n > 0 {
      MergeCitiesLookup(acc, child, n - 1, incAbs, env, id, slug);
      var before := MergeCities(acc, child, n - 1, incAbs, env, id).value;
      MergeCityLookup(before, child, child.cities[n - 1], incAbs, env, id, slug);
    }
  }

  // ------------------------------------------------------------- one city

  function GridEdge(w: World, edge: real): real {
    if w.env.Some? then w.env.value else if edge > 0.0 then edge else DefaultHexEdgeM
  }

  /** A city that came from an include: stamped, and stored under the edge its own grid resolves to. */
  ghost predicate Included(w: World, c: City) {
    ValidCity(c) && c.srcID != "" && c.srcHash != "" && c.srcEdge == GridEdge(w, c.hexEdge)
  }

  /** A city of a resolved config: either stamped as a whole or not at all. */
  ghost predicate Stamped(w: World, config: Config, c: City) {
    && ValidForecast(config.forecast) && config.hexEdge >= 0.0 && config.minHexArea >= 0.0 && ValidCity(c)
    && (if c.srcID == "" then c.srcHash == "" && c.srcEdge == 0.0
        else c.srcHash != "" && c.srcEdge == ResolvedHexEdge(config, c, w.env))
  }

  lemma NewView(w: World, child: Config, src: City, id: Identity)
    requires ValidWorld(w) && Stamped(w, child, src) && id.configID != "" && id.hash != ""
    ensures var c := MergeNew(child, src, w.env, id); Included(w, c) && View(c) == Through(w, child, src, id)
  {
    hide Says, ValidForecast, ApplyCity;
    EffectiveSays(child, src);
  }

  lemma ExistingView(w: World, e: City, child: Config, src: City, id: Identity)
    requires ValidWorld(w) && Included(w, e) && Stamped(w, child, src) && id.configID != "" && id.hash != ""
    requires e.name == src.name
    ensures var c := MergeExisting(e, child, src, w.env, id);
            Included(w, c) && View(c) == Combine(View(e), Through(w, child, src, id))
  {
    hide Says, ValidForecast, EffectiveForecast, UnionForecast, FirstSaid;
    EffectiveSays(child, src);
    var srcForecast := EffectiveForecast(child, src);
    NothingSaid(SaysOpt(e.forecast));
    if srcForecast.Some? {
      UnionSays(e.forecast, srcForecast.value);
    }
  }

  lemma NothingSaid(s: Stated)
    ensures FirstSaid(s, Says(NoForecast)) == s == FirstSaid(Says(NoForecast), s)
    ensures !Disagree(s, Says(NoForecast)) && !Disagree(Says(NoForecast), s)
  {
  }

  lemma UnionSays(dst: Option<Forecast>, src: Forecast)
    requires dst.Some? ==> ValidForecast(dst.value)
    requires ValidForecast(src)
    ensures Says(UnionOf(dst, src)) == FirstSaid(SaysOpt(dst), Says(src))
    ensures ConflictsOf(dst, src) != [] <==> Disagree(SaysOpt(dst), Says(src))
    ensures ValidForecast(UnionOf(dst, src))
  {
    hide Says, ValidForecast, UnionForecast, FirstSaid, ForecastConflicts, Disagree;
    if dst.Some? {
      UnionIsFirstSaid(dst.value, src);
    } else {
      NothingSaid(Says(src));
    }
  }

  // -------------------------------------------------------- the fold's meaning

  /** One slug of a parent under assembly against what its includes so far declare of it. */
  ghost predicate Tracks(w: World, f: File, acc: Acc, slug: string, cs: seq<Said>) {
    var c := Lookup(acc.cities, slug);
    var own := Lookup(f.config.cities, slug);
    if own.Some? then c == own && slug !in acc.fromInclude
    else
      && (c.Some? <==> cs != []) && (slug in acc.fromInclude <==> c.Some?)
      && (c.Some? ==> Included(w, c.value) && View(c.value) == Fold(cs))
  }

  /** One slug of a resolved config against what the files reachable from it declare of it. */
  ghost predicate Means(w: World, path: Path, r: Resolved, slug: string, cs: seq<Said>) {
    var c := Lookup(r.config.cities, slug);
    && (c.Some? <==> cs != [])
    && (c.Some? ==> Stamped(w, r.config, c.value) &&
                    Through(w, r.config, c.value, SourceIdentity(w, r.config, path, r.blobs)) == Fold(cs))
  }

  lemma TracksStep(w: World, f: File, part: Partial, q: Path, child: Resolved, slug: string, before: seq<Said>,
                   more: seq<Said>)
    requires ValidWorld(w) && Tracks(w, f, part.acc, slug, before) && Means(w, q, child, slug, more)
    requires DistinctSlugs(child.config.cities) && FoldInclude(w, part, q, child).Ok?
    ensures Tracks(w, f, FoldInclude(w, part, q, child).value.acc, slug, before + more)
  {
    hide MergeNew, MergeExisting, MergeCities, Through, View, Included, Stamped, Combine, Fold;
    var id := SourceIdentity(w, child.config, q, child.blobs);
    MergeCitiesLookup(part.acc, child.config, |child.config.cities|, q, w.env, id, slug);
    var src := Lookup(child.config.cities, slug);
    var prev := Lookup(part.acc.cities, slug);
    if src.Some? {
      NewView(w, child.config, src.value, id);
      if prev.Some? && slug in part.acc.fromInclude {
        ExistingView(w, prev.value, child.config, src.value, id);
        FoldJoin(before, more);
      } else {
        assert before == [] || prev.Some?;
        assert [] + more == more;
      }
    } else {
      assert before + more == before;
    }
  }

  lemma {:induction false} MergeCitiesDistinct(acc: Acc, child: Config, n: nat, incAbs: string, env: Option<real>,
                                               id: Identity)
    requires n <= |child.cities| && DistinctSlugs(acc.cities) && MergeCities(acc, child, n, incAbs, env, id).Ok?
    ensures DistinctSlugs(MergeCities(acc, child, n, incAbs, env, id).value.cities)
  {
    hide MergeNew, MergeExisting, MergeConflicts;
    if n > 0 {
      MergeCitiesDistinct(acc, child, n - 1, incAbs, env, id);
      var before, src := MergeCities(acc, child, n - 1, incAbs, env, id).value, child.cities[n - 1];
      var i := IndexOf(before.cities, src.slug);
      MergeNewKeepsSlug(child, src, env, id);
      if i < |before.cities| {
        MergeExistingKeepsSlug(before.cities[i], child, src, env, id);
      }
    }
  }

  lemma {:induction false} IncludesDistinct(w: World, f: File, i: nat, fuel: nat)
    requires i <= |f.config.includes| && PlainIncludes(w, f, i, fuel).Ok? && DistinctSlugs(f.config.cities)
    ensures DistinctSlugs(PlainIncludes(w, f, i, fuel).value.acc.cities)
  {
    hide MergeCities, DistinctSlugs;
    if i > 0 {
      IncludesDistinct(w, f, i - 1, fuel);
      var before := PlainIncludes(w, f, i - 1, fuel).value;
      var p := f.config.includes[i - 1].path;
      var child := Plain(w, p, fuel - 1).value;
      MergeCitiesDistinct(before.acc, child.config, |child.config.cities|, p, w.env,
                          SourceIdentity(w, child.config, p, child.blobs));
    }
  }

  /** Slugs stay unique. */
  lemma ResolvedDistinct(w: World, path: Path, n: nat)
    requires ValidWorld(w) && Plain(w, path, n).Ok?
    ensures DistinctSlugs(Plain(w, path, n).value.config.cities)
  {
    hide DistinctSlugs, FoldInclude;
    var f := w.files[path];
    assert ValidFile(f.config);
    IncludesDistinct(w, f, |f.config.includes|, n);
  }

  lemma {:induction false} IncludesTrack(w: World, f: File, i: nat, fuel: nat, slug: string)
    requires ValidWorld(w) && i <= |f.config.includes| && PlainIncludes(w, f, i, fuel).Ok?
    ensures Tracks(w, f, PlainIncludes(w, f, i, fuel).value.acc, slug, FromIncludes(w, f, slug, i, fuel))
    decreases fuel, 0, i
  {
    hide FoldInclude, Means, Statements, DistinctSlugs;
    if i > 0 {
      IncludesTrack(w, f, i - 1, fuel, slug);
      var p := f.config.includes[i - 1].path;
      ResolvedMeans(w, p, fuel - 1, slug);
      ResolvedDistinct(w, p, fuel - 1);
      TracksStep(w, f, PlainIncludes(w, f, i - 1, fuel).value, p, Plain(w, p, fuel - 1).value, slug,
                 FromIncludes(w, f, slug, i - 1, fuel), Statements(w, p, slug, fuel - 1));
    }
  }

  /** A config that states nothing itself is transparent to what its included cities say. */
  lemma SeesThrough(w: World, config: Config, c: City, id: Identity)
    requires ValidWorld(w) && ForecastIsZero(config.forecast) && config.hexEdge == 0.0 && config.minHexArea == 0.0
    requires ValidForecast(config.forecast) && Included(w, c)
    ensures Stamped(w, config, c) && Through(w, config, c, id) == View(c)
    ensures c.srcEdge == ResolvedHexEdge(config, c, w.env)
  {
    hide ValidForecast, EffectiveForecast, FirstSaid;
    EffectiveSays(config, c);
    NothingSaid(SaysOpt(c.forecast));
  }

  lemma OwnCity(w: World, f: File, c: City, r: Resolved, path: Path)
    requires ValidFile(f.config) && c in f.config.cities && r.config == f.config.(cities := r.config.cities)
    ensures Stamped(w, r.config, c)
    ensures var id := SourceIdentity(w, r.config, path, r.blobs);
            id == SourceIdentity(w, f.config, path, r.blobs) &&
              Through(w, r.config, c, id) == Through(w, f.config, c, id)
  {
    hide ValidForecast, ForecastIsZero, DistinctSlugs, ApplyCity;
  }

  /** A slug resolves to a city exactly when some reachable file declares it, and the city says exactly
      the fold of those declarations. */
  lemma {:induction false} ResolvedMeans(w: World, path: Path, n: nat, slug: string)
    requires ValidWorld(w) && Plain(w, path, n).Ok?
    ensures Means(w, path, Plain(w, path, n).value, slug, Statements(w, path, slug, n))
    decreases n, 1, 0
  {
    hide FoldInclude, DistinctSlugs, Through, Stamped, View, Included, Fold, ForecastIsZero, ValidForecast;
    hide SourceIdentity;
    var f := w.files[path];
    var r := Plain(w, path, n).value;
    assert ValidFile(f.config);
    IncludesTrack(w, f, |f.config.includes|, n, slug);
    var own, c := Lookup(f.config.cities, slug), Lookup(r.config.cities, slug);
    if own.Some? {
      OwnCity(w, f, own.value, r, path);
      FoldOne(Through(w, f.config, own.value, SourceIdentity(w, f.config, path, r.blobs)));
    } else if c.Some? {
      assert f.config.includes != [];
      SeesThrough(w, r.config, c.value, SourceIdentity(w, r.config, path, r.blobs));
    }
  }

  lemma FoldOne(s: Said)
    ensures Fold([s]) == s
  {
  }

  // ----------------------------------------------------------- main results

  /** The value of the first statement of a field, if any. */
  ghost predicate IsFirst<T>(column: seq<Option<T>>, v: Option<T>) {
    if v.None? then forall k :: 0 <= k < |column| ==> column[k].None?
    else exists k :: 0 <= k < |column| && column[k] == v && forall j :: 0 <= j < k ==> column[j].None?
  }

  lemma IsFirstMore<T>(column: seq<Option<T>>, v: Option<T>, last: Option<T>)
    requires IsFirst(column, v)
    ensures IsFirst(column + [last], First(v, last))
  {
    var all := column + [last];
    if v.Some? {
      var k :| 0 <= k < |column| && column[k] == v && forall j :: 0 <= j < k ==> column[j].None?;
      assert all[k] == v;
    } else if last.Some? {
      assert all[|column|] == last;
    }
  }

  lemma FirstAlone<T>(column: seq<Option<T>>)
    requires |column| == 1
    ensures IsFirst(column, column[0])
  {
  }

  lemma CombineStated(a: Said, b: Said)
    ensures Combine(a, b).stated == FirstSaid(a.stated, b.stated)
  {
  }

  /** One field of each declaration, in order. */
  function Column<T>(cs: seq<Said>, field: Stated -> Option<T>): (column: seq<Option<T>>)
    ensures |column| == |cs| && forall k :: 0 <= k < |cs| ==> column[k] == field(cs[k].stated)
  {
    seq(|cs|, k requires 0 <= k < |cs| => field(cs[k].stated))
  }

  ghost predicate Fieldwise<T(!new)>(field: Stated -> Option<T>) {
    forall a, b :: field(FirstSaid(a, b)) == First(field(a), field(b))
  }

  lemma FieldwiseAt<T(!new)>(field: Stated -> Option<T>, a: Stated, b: Stated)
    requires Fieldwise(field)
    ensures field(FirstSaid(a, b)) == First(field(a), field(b))
  {
  }

  lemma {:induction false} FoldTakesFirst<T(!new)>(cs: seq<Said>, field: Stated -> Option<T>)
    requires cs != [] && Fieldwise(field)
    ensures IsFirst(Column(cs, field), field(Fold(cs).stated))
  {
    hide FirstSaid, Combine, IsFirst, First, Fieldwise;
    var n := |cs| - 1;
    if n == 0 {
      FirstAlone(Column(cs, field));
    } else {
      FoldTakesFirst(cs[..n], field);
      CombineStated(Fold(cs[..n]), cs[n]);
      FieldwiseAt(field, Fold(cs[..n]).stated, cs[n].stated);
      IsFirstMore(Column(cs[..n], field), field(Fold(cs[..n]).stated), field(cs[n].stated));
      assert Column(cs, field) == Column(cs[..n], field) + [field(cs[n].stated)];
    }
  }

  /** At any nesting, each forecast field of the fold is the first one stated, in order; growth_rate
      by presence, so that a stated zero wins. */
  lemma EachFieldIsFirstStated(cs: seq<Said>)
    requires cs != []
    ensures IsFirst(Column(cs, (s: Stated) => s.initialPCI), Fold(cs).stated.initialPCI)
    ensures IsFirst(Column(cs, (s: Stated) => s.decayRate), Fold(cs).stated.decayRate)
    ensures IsFirst(Column(cs, (s: Stated) => s.growthRate), Fold(cs).stated.growthRate)
    ensures IsFirst(Column(cs, (s: Stated) => s.years), Fold(cs).stated.years)
    ensures IsFirst(Column(cs, (s: Stated) => s.costTiers), Fold(cs).stated.costTiers)
    ensures IsFirst(Column(cs, (s: Stated) => s.treatmentCycleYears), Fold(cs).stated.treatmentCycleYears)
    ensures IsFirst(Column(cs, (s: Stated) => s.currentBudget), Fold(cs).stated.currentBudget)
    ensures IsFirst(Column(cs, (s: Stated) => s.costOverhead), Fold(cs).stated.costOverhead)
  {
    hide IsFirst, Fold;
    FoldTakesFirst(cs, (s: Stated) => s.initialPCI);
    FoldTakesFirst(cs, (s: Stated) => s.decayRate);
    FoldTakesFirst(cs, (s: Stated) => s.growthRate);
    FoldTakesFirst(cs, (s: Stated) => s.years);
    FoldTakesFirst(cs, (s: Stated) => s.costTiers);
    FoldTakesFirst(cs, (s: Stated) => s.treatmentCycleYears);
    FoldTakesFirst(cs, (s: Stated) => s.currentBudget);
    FoldTakesFirst(cs, (s: Stated) => s.costOverhead);
  }

  /** The declaration whose grid the fold carries: the first that states one, else the first. */
  ghost predicate OwnsGrid(cs: seq<Said>, k: nat) {
    && k < |cs|
    && (forall j :: 0 <= j < k ==> cs[j].edge == cs[j].area == 0.0)
    && (k > 0 ==> cs[k].edge != 0.0 || cs[k].area != 0.0)
    && (k == 0 && cs[0].edge == cs[0].area == 0.0 ==> forall j :: 0 <= j < |cs| ==> cs[j].edge == cs[j].area == 0.0)
  }

  /** The grid pair, the source identity and the stored edge all come from one declaration. */
  lemma {:induction false} GridFromOneFile(cs: seq<Said>)
    requires cs != []
    ensures exists k: nat :: OwnsGrid(cs, k) && Fold(cs) == cs[k].(stated := Fold(cs).stated)
  {
    hide Combine, StatesGrid;
    var n := |cs| - 1;
    if n == 0 {
      assert OwnsGrid(cs, 0);
    } else {
      var front := cs[..n];
      GridFromOneFile(front);
      var k: nat :| OwnsGrid(front, k) && Fold(front) == front[k].(stated := Fold(front).stated);
      OwnerStep(cs, k);
      CombineGrid(Fold(front), cs[n]);
    }
  }

  lemma OwnerStep(cs: seq<Said>, k: nat)
    requires |cs| > 1 && OwnsGrid(cs[..|cs| - 1], k)
    ensures OwnsGrid(cs, if StatesGrid(cs[|cs| - 1].edge, cs[|cs| - 1].area) && !StatesGrid(cs[k].edge, cs[k].area)
                         then |cs| - 1 else k)
  {
    var front := cs[..|cs| - 1];
    assert forall j :: 0 <= j < |front| ==> front[j] == cs[j];
  }

  lemma CombineGrid(a: Said, b: Said)
    ensures var c := Combine(a, b);
            c == (if StatesGrid(b.edge, b.area) && !StatesGrid(a.edge, a.area) then b else a).(stated := c.stated)
  {
  }

  /** For every city that came from an include: what it says is the fold of what the reachable files
      declare, and the edge the union resolves for it is the edge its source data was stored under. */
  lemma IncludedCityMeans(w: World, path: Path, n: nat, slug: string)
    requires ValidWorld(w) && Plain(w, path, n).Ok?
    ensures var r, own := Plain(w, path, n).value, Lookup(w.files[path].config.cities, slug);
            var c, cs := Lookup(r.config.cities, slug), Statements(w, path, slug, n);
            && (own.Some? ==> c == own)
            && (own.None? && c.Some? ==>
                  Included(w, c.value) && ForecastIsZero(r.config.forecast) &&
                    r.config.hexEdge == r.config.minHexArea == 0.0 &&
                  cs != [] && View(c.value) == Fold(cs) && ResolvedHexEdge(r.config, c.value, w.env) == c.value.srcEdge)
  {
    hide FoldInclude, DistinctSlugs, Through, Stamped, View, Included, Fold, ForecastIsZero, ValidForecast;
    hide ResolvedHexEdge;
    var f := w.files[path];
    var r := Plain(w, path, n).value;
    assert ValidFile(f.config);
    IncludesTrack(w, f, |f.config.includes|, n, slug);
    var own, c := Lookup(f.config.cities, slug), Lookup(r.config.cities, slug);
    if own.None? && c.Some? {
      SeesThrough(w, r.config, c.value, SourceIdentity(w, r.config, path, r.blobs));
    }
  }

  /** Resolution depends only on what the city's block states. */
  lemma SaidResolves(parent: Config, c: City, from: Config, src: City, env: Env)
    requires ForecastIsZero(parent.forecast) && ValidCity(c) && ValidForecast(from.forecast) && ValidCity(src)
    requires SaysOpt(c.forecast) == SaysOpt(EffectiveForecast(from, src))
    ensures var there, here := ResolvedForecast(from, src, env), ResolvedForecast(parent, c, env);
            here.(growthRateSet := there.growthRateSet) == there
  {
    hide EffectiveForecast, ResolvedForecast;
    EffectiveSays(from, src);
    var flat := src.(forecast := EffectiveForecast(from, src));
    FlattenedResolvesTheSame(parent, from, src, env);
    SameSaysResolveTheSame(parent, c, flat, env);
  }

  lemma SameSaysResolveTheSame(parent: Config, a: City, b: City, env: Env)
    requires ForecastIsZero(parent.forecast) && ValidCity(a) && ValidCity(b) &&
             SaysOpt(a.forecast) == SaysOpt(b.forecast)
    ensures var here, there := ResolvedForecast(parent, a, env), ResolvedForecast(parent, b, env);
            here.(growthRateSet := there.growthRateSet) == there
  {
  }

  /** A city that one file alone declares resolves, at any nesting, to exactly what that file run by
      itself resolves for it. */
  lemma LoneDeclarationResolvesTheSame(w: World, path: Path, n: nat, from: Config, src: City, id: Identity, env: Env)
    requires ValidWorld(w) && Plain(w, path, n).Ok? && Lookup(w.files[path].config.cities, src.slug).None?
    requires ValidForecast(from.forecast) && from.hexEdge >= 0.0 && from.minHexArea >= 0.0 && ValidCity(src)
    requires Statements(w, path, src.slug, n) == [Through(w, from, src, id)]
    ensures var r := Plain(w, path, n).value;
            var c := Lookup(r.config.cities, src.slug);
            && c.Some?
            && ResolvedHexEdge(r.config, c.value, w.env) == ResolvedHexEdge(from, src, w.env)
            && ResolvedMinHexArea(r.config, c.value) == ResolvedMinHexArea(from, src)
            && var there, here := ResolvedForecast(from, src, env), ResolvedForecast(r.config, c.value, env);
               here.(growthRateSet := there.growthRateSet) == there
  {
    hide FoldInclude, DistinctSlugs, Stamped, Fold, ValidForecast, EffectiveForecast, Says, Statements;
    hide ResolvedForecast;
    ResolvedMeans(w, path, n, src.slug);
    IncludedCityMeans(w, path, n, src.slug);
    FoldOne(Through(w, from, src, id));
    var r := Plain(w, path, n).value;
    var c := Lookup(r.config.cities, src.slug).value;
    SaidResolves(r.config, c, from, src, env);
  }

  // --------------------------------------------------------------- warnings

  function Named(clash: bool, field: string): seq<string> {
    if clash then [field] else []
  }

  /** The forecast fields that both state, differently, in the order a warning lists them. */
  function StatedClashes(a: Stated, b: Stated): seq<string> {
    Named(Clash(a.initialPCI, b.initialPCI), "forecast.initial_pci")
    + Named(Clash(a.decayRate, b.decayRate), "forecast.decay_rate")
    + Named(Clash(a.growthRate, b.growthRate), "forecast.growth_rate")
    + Named(Clash(a.treatmentCycleYears, b.treatmentCycleYears), "forecast.treatment_cycle_years")
    + Named(Clash(a.currentBudget, b.currentBudget), "forecast.current_budget")
    + Named(Clash(a.costOverhead, b.costOverhead), "forecast.cost_overhead")
    + Named(Clash(a.years, b.years), "forecast.years")
    + Named(Clash(a.costTiers, b.costTiers), "forecast.cost_tiers")
  }

  /** What the later declaration states and the earlier overrides: the grid fields first. */
  function Clashes(a: Said, b: Said): seq<string> {
    (if a.edge != 0.0 || a.area != 0.0
     then Named(b.edge != 0.0 && b.edge != a.edge, "hex_edge_m") +
       Named(b.area != 0.0 && b.area != a.area, "min_hex_area")
     else [])
    + StatedClashes(a.stated, b.stated)
  }

  lemma ForecastClashes(dst: Forecast, src: Forecast)
    ensures ForecastConflicts(dst, src) == StatedClashes(Says(dst), Says(src))
  {
  }

  lemma NothingClashes(s: Stated)
    ensures StatedClashes(s, Says(NoForecast)) == [] == StatedClashes(Says(NoForecast), s)
  {
  }

  lemma GridClashes(e: City, edge: real, area: real)
    ensures (if StatesGrid(edge, area) && StatesGrid(e.hexEdge, e.minHexArea)
             then GridConflicts(e, edge, area) else []) ==
            if e.hexEdge != 0.0 || e.minHexArea != 0.0
            then Named(edge != 0.0 && edge != e.hexEdge, "hex_edge_m") +
              Named(area != 0.0 && area != e.minHexArea, "min_hex_area")
            else []
  {
  }

  /** A merge reports exactly the stated values it drops. */
  lemma ConflictsAreClashes(w: World, e: City, child: Config, src: City, id: Identity)
    requires ValidWorld(w) && Included(w, e) && Stamped(w, child, src)
    ensures MergeConflicts(e, child, src) == Clashes(View(e), Through(w, child, src, id))
  {
    hide Says, ValidForecast, EffectiveForecast, FirstSaid, ForecastConflicts, StatedClashes, GridConflicts, Named;
    hide StatesGrid;
    EffectiveSays(child, src);
    var srcForecast := EffectiveForecast(child, src);
    GridClashes(e, EffectiveHexEdge(child, src), EffectiveMinHexArea(child, src));
    NothingClashes(SaysOpt(e.forecast));
    if srcForecast.Some? {
      NothingClashes(Says(srcForecast.value));
      if e.forecast.Some? {
        ForecastClashes(e.forecast.value, srcForecast.value);
      }
    }
  }

  /** The warnings about one slug. */
  function About(ws: seq<Warning>, slug: string): seq<Warning> {
    if ws == [] then []
    else About(ws[..|ws| - 1], slug) + if ws[|ws| - 1].slug == slug then [ws[|ws| - 1]] else []
  }

  lemma AboutMore(ws: seq<Warning>, more: Warning, slug: string)
    ensures About(ws + [more], slug) == About(ws, slug) + if more.slug == slug then [more] else []
  {
    assert (ws + [more])[..|ws|] == ws;
  }

  /** The warning that merging one city raises about its slug, if any. */
  function Drop(acc: Acc, child: Config, src: City, incAbs: string): seq<Warning> {
    var e := Lookup(acc.cities, src.slug);
    if e.None? || src.slug !in acc.fromInclude || MergeConflicts(e.value, child, src) == [] then []
    else [Warning(src.slug, acc.fromInclude[src.slug], incAbs, MergeConflicts(e.value, child, src))]
  }

  lemma MergeCityWarns(acc: Acc, child: Config, src: City, incAbs: string, env: Option<real>, id: Identity,
                       slug: string)
    requires MergeCity(acc, child, src, incAbs, env, id).Ok?
    ensures About(MergeCity(acc, child, src, incAbs, env, id).value.warnings, slug) ==
            About(acc.warnings, slug) + if src.slug == slug then Drop(acc, child, src, incAbs) else []
  {
    hide MergeNew, MergeExisting, MergeConflicts, IndexOf, About;
    var drop := Drop(acc, child, src, incAbs);
    if drop != [] {
      AboutMore(acc.warnings, drop[0], slug);
    }
  }

  lemma {:induction false} MergeCitiesWarns(acc: Acc, child: Config, n: nat, incAbs: string, env: Option<real>,
                                            id: Identity, slug: string)
    requires n <= |child.cities| && DistinctSlugs(child.cities) && MergeCities(acc, child, n, incAbs, env, id).Ok?
    ensures var k := IndexOf(child.cities, slug);
            About(MergeCities(acc, child, n, incAbs, env, id).value.warnings, slug) ==
            About(acc.warnings, slug) + if k < n then Drop(acc, child, child.cities[k], incAbs) else []
  {
    hide MergeCity, MergeConflicts, Lookup, About;
    if n > 0 {
      MergeCitiesWarns(acc, child, n - 1, incAbs, env, id, slug);
      MergeCitiesLookup(acc, child, n - 1, incAbs, env, id, slug);
      MergeCityWarns(MergeCities(acc, child, n - 1, incAbs, env, id).value, child, child.cities[n - 1], incAbs, env, id,
                     slug);
    }
  }

  /** What f's first i includes declare of a slug, and what include i does; nothing where they do not resolve. */
  function SoFar(w: World, f: File, slug: string, i: nat, fuel: nat): seq<Said>
    requires i <= |f.config.includes|
  {
    if PlainIncludes(w, f, i, fuel).Ok? then FromIncludes(w, f, slug, i, fuel) else []
  }

  function Then(w: World, f: File, slug: string, i: nat, fuel: nat): seq<Said>
    requires i < |f.config.includes|
  {
    if fuel > 0 && Plain(w, f.config.includes[i].path, fuel - 1).Ok?
    then Statements(w, f.config.includes[i].path, slug, fuel - 1) else []
  }

  /** The path of the first of f's includes before i that contributes the slug. */
  function FirstFrom(w: World, f: File, slug: string, i: nat, fuel: nat): string
    requires i <= |f.config.includes|
  {
    if i == 0 then ""
    else if SoFar(w, f, slug, i - 1, fuel) != [] then FirstFrom(w, f, slug, i - 1, fuel)
    else f.config.includes[i - 1].path
  }

  /** The warning that one more include calls for: it states something that an earlier one, the first
      of which is at winner, states differently. It names both includes and exactly the fields dropped. */
  function DropAt(slug: string, winner: string, loser: string, before: seq<Said>, more: seq<Said>): seq<Warning> {
    if before == [] || more == [] || Clashes(Fold(before), Fold(more)) == [] then []
    else [Warning(slug, winner, loser, Clashes(Fold(before), Fold(more)))]
  }

  /** The warnings about a slug that f's first i includes call for. */
  function Drops(w: World, f: File, slug: string, i: nat, fuel: nat): seq<Warning>
    requires i <= |f.config.includes|
  {
    if i == 0 || Lookup(f.config.cities, slug).Some? then []
    else
      Drops(w, f, slug, i - 1, fuel) +
      DropAt(slug, FirstFrom(w, f, slug, i - 1, fuel), f.config.includes[i - 1].path,
             SoFar(w, f, slug, i - 1, fuel), Then(w, f, slug, i - 1, fuel))
  }

  ghost predicate Credited(acc: Acc, slug: string, path: string) {
    slug in acc.fromInclude ==> acc.fromInclude[slug] == path
  }

  lemma WarnsStep(w: World, f: File, part: Partial, q: Path, child: Resolved, slug: string, before: seq<Said>,
                  more: seq<Said>, path: string)
    requires ValidWorld(w) && Tracks(w, f, part.acc, slug, before) && Means(w, q, child, slug, more)
    requires Credited(part.acc, slug, path)
    requires DistinctSlugs(child.config.cities) && FoldInclude(w, part, q, child).Ok?
    ensures var after := FoldInclude(w, part, q, child).value.acc;
            && Credited(after, slug, if before != [] then path else q)
            && About(after.warnings, slug) == About(part.acc.warnings, slug) +
                 if Lookup(f.config.cities, slug).None? then DropAt(slug, path, q, before, more) else []
  {
    hide MergeCities, MergeConflicts, Through, View, Included, Stamped, Fold, About, Clashes;
    var id := SourceIdentity(w, child.config, q, child.blobs);
    MergeCitiesWarns(part.acc, child.config, |child.config.cities|, q, w.env, id, slug);
    MergeCitiesLookup(part.acc, child.config, |child.config.cities|, q, w.env, id, slug);
    var src, prev := Lookup(child.config.cities, slug), Lookup(part.acc.cities, slug);
    if src.Some? && prev.Some? && slug in part.acc.fromInclude {
      ConflictsAreClashes(w, prev.value, child.config, src.value, id);
    }
  }

  lemma NoWarningsYet(f: File, slug: string)
    ensures About(Begin(f).acc.warnings, slug) == [] && slug !in Begin(f).acc.fromInclude
  {
  }

  /** While a parent's includes are folded, the warnings about a slug are exactly those its drops call
      for, in order: a backfill is silent, and so is the parent's own city. */
  lemma {:induction false} WarningsAreDrops(w: World, f: File, i: nat, fuel: nat, slug: string)
    requires ValidWorld(w) && i <= |f.config.includes| && PlainIncludes(w, f, i, fuel).Ok?
    ensures About(PlainIncludes(w, f, i, fuel).value.acc.warnings, slug) == Drops(w, f, slug, i, fuel)
    ensures Credited(PlainIncludes(w, f, i, fuel).value.acc, slug, FirstFrom(w, f, slug, i, fuel))
  {
    hide DropAt, FoldInclude, Means, Statements, DistinctSlugs, FromIncludes, Tracks, Lookup, About, Begin;
    if i == 0 {
      NoWarningsYet(f, slug);
    } else {
      WarningsAreDrops(w, f, i - 1, fuel, slug);
      var p := f.config.includes[i - 1].path;
      IncludesTrack(w, f, i - 1, fuel, slug);
      ResolvedMeans(w, p, fuel - 1, slug);
      ResolvedDistinct(w, p, fuel - 1);
      var part := PlainIncludes(w, f, i - 1, fuel).value;
      WarnsStep(w, f, part, p, Plain(w, p, fuel - 1).value, slug, FromIncludes(w, f, slug, i - 1, fuel),
                Statements(w, p, slug, fuel - 1), FirstFrom(w, f, slug, i - 1, fuel));
    }
  }
}
