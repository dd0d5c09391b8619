/** When include resolution succeeds and what it reads, internal/config/include.go, in terms of chains of
    includes from the root: how deep they go, what they reach, and the names that the reached files give. */
module IncludeReach {
  import opened IncludeConfig
  import opened IncludeMerge
  import opened IncludePlain
  import opened IncludeLaws

  // ----------------------------------------------------------------- chains

  /** A way from the root: at each step, a file that the one before includes. */
  ghost predicate Reaches(w: World, root: Path, chain: seq<Path>) {
    |chain| > 0 && chain[0] == root && IncludeChain(w, chain)
  }

  function End(chain: seq<Path>): Path
    requires |chain| > 0
  {
    chain[|chain| - 1]
  }

  /** The file that the chain ends at lists the city. */
  ghost predicate Declares(w: World, chain: seq<Path>, c: City) {
    |chain| > 0 && End(chain) in w.files && c in w.files[End(chain)].config.cities
  }

  lemma ChainOfOne(w: World, root: Path)
    ensures Reaches(w, root, [root]) && End([root]) == root
  {
  }

  lemma ChainFrom(w: World, root: Path, chain: seq<Path>)
    requires Reaches(w, root, chain) && |chain| > 1
    ensures Includes(w, root, chain[1]) && Reaches(w, chain[1], chain[1..]) && End(chain[1..]) == End(chain)
  {
    var rest := chain[1..];
    forall k | 0 <= k < |rest| - 1
      ensures Includes(w, rest[k], rest[k + 1])
    {
      assert Includes(w, chain[k + 1], chain[k + 2]);
    }
  }

  lemma ChainThrough(w: World, root: Path, chain: seq<Path>)
    requires |chain| > 0 && Includes(w, root, chain[0]) && IncludeChain(w, chain)
    ensures Reaches(w, root, [root] + chain) && End([root] + chain) == End(chain)
  {
    var all := [root] + chain;
    forall k | 0 <= k < |all| - 1
      ensures Includes(w, all[k], all[k + 1])
    {
      if k > 0 {
        assert Includes(w, chain[k - 1], chain[k]);
      }
    }
  }

  // ------------------------------------------------------------ names merged

  /** The slugs of a config with their names. */
  function Held(cities: seq<City>): set<(string, string)> {
    set i | 0 <= i < |cities| :: (cities[i].slug, cities[i].name)
  }

  lemma HeldMore(cities: seq<City>, c: City)
    ensures Held(cities + [c]) == Held(cities) + {(c.slug, c.name)}
  {
    var all := cities + [c];
    assert all[|cities|] == c;
    assert forall i :: 0 <= i < |cities| ==> all[i] == cities[i];
  }

  lemma HeldUpdate(cities: seq<City>, i: nat, c: City)
    requires i < |cities| && c.slug == cities[i].slug && c.name == cities[i].name
    ensures Held(cities[i := c]) == Held(cities)
  {
    var all := cities[i := c];
    forall k | 0 <= k < |all|
      ensures (all[k].slug, all[k].name) == (cities[k].slug, cities[k].name)
    {
    }
    forall x
      ensures x in Held(all) <==> x in Held(cities)
    {
      if x in Held(cities) {
        var k :| 0 <= k < |cities| && x == (cities[k].slug, cities[k].name);
        assert x == (all[k].slug, all[k].name);
      }
    }
  }

  lemma HeldBy(cities: seq<City>, i: nat)
    requires i < |cities|
    ensures (cities[i].slug, cities[i].name) in Held(cities)
  {
  }

  /** The slug is held under another name. */
  ghost predicate Collides(held: set<(string, string)>, slug: string, name: string) {
    exists other :: (slug, other) in held && other != name
  }

  lemma MergeOneHeld(acc: Acc, child: Config, src: City, incAbs: string, env: Option<real>, id: Identity)
    requires DistinctSlugs(acc.cities)
    ensures var after := MergeCity(acc, child, src, incAbs, env, id);
            && (after.Err? <==> Collides(Held(acc.cities), src.slug, src.name))
            && (after.Ok? ==> Held(after.value.cities) == Held(acc.cities) + {(src.slug, src.name)})
  {
    hide MergeNew, MergeExisting, MergeConflicts, Held;
    var i := IndexOf(acc.cities, src.slug);
    if i == |acc.cities| {
      NewKeepsName(child, src, env, id);
      HeldMore(acc.cities, MergeNew(child, src, env, id));
      if other :| (src.slug, other) in Held(acc.cities) && other != src.name {
        var k := HeldAt(acc.cities, src.slug, other);
        assert false;
      }
    } else {
      var e := acc.cities[i];
      HeldBy(acc.cities, i);
      ExistingKeepsName(e, child, src, env, id);
      HeldUpdate(acc.cities, i, MergeExisting(e, child, src, env, id));
      if other :| (src.slug, other) in Held(acc.cities) && other != src.name {
        var k := HeldAt(acc.cities, src.slug, other);
        assert k == i;
      }
      if e.name == src.name {
        assert Held(acc.cities) == Held(acc.cities) + {(src.slug, src.name)};
      }
    }
  }

  lemma HeldAt(cities: seq<City>, slug: string, name: string) returns (k: nat)
    requires (slug, name) in Held(cities)
    ensures k < |cities| && cities[k].slug == slug && cities[k].name == name
  {
    var i :| 0 <= i < |cities| && (cities[i].slug, cities[i].name) == (slug, name);
    k := i;
  }

  lemma NewKeepsName(child: Config, src: City, env: Option<real>, id: Identity)
    ensures MergeNew(child, src, env, id).slug == src.slug && MergeNew(child, src, env, id).name == src.name
  {
  }

  lemma ExistingKeepsName(e: City, child: Config, src: City, env: Option<real>, id: Identity)
    ensures MergeExisting(e, child, src, env, id).slug == e.slug && MergeExisting(e, child, src, env, id).name == e.name
  {
  }

  /** Some city of the child carries the slug of a held city under another name. */
  ghost predicate SlugClash(held: seq<City>, cities: seq<City>) {
    exists i, k :: 0 <= i < |held| && 0 <= k < |cities| && held[i].slug == cities[k].slug &&
                   held[i].name != cities[k].name
  }

  lemma {:induction false} MergeHeld(acc: Acc, child: Config, n: nat, incAbs: string, env: Option<real>, id: Identity)
    requires n <= |child.cities| && DistinctSlugs(acc.cities) && DistinctSlugs(child.cities)
    ensures var after := MergeCities(acc, child, n, incAbs, env, id);
            && (after.Err? <==> SlugClash(acc.cities, child.cities[..n]))
            && (after.Ok? ==> Held(after.value.cities) == Held(acc.cities) + Held(child.cities[..n]))
  {
    hide MergeCity, Held;
    if n == 0 {
      HeldNone();
    } else {
      MergeHeld(acc, child, n - 1, incAbs, env, id);
      var front, src := child.cities[..n - 1], child.cities[n - 1];
      assert child.cities[..n] == front + [src];
      var before := MergeCities(acc, child, n - 1, incAbs, env, id);
      if before.Ok? {
        MergeCitiesDistinct(acc, child, n - 1, incAbs, env, id);
        MergeOneHeld(before.value, child, src, incAbs, env, id);
        HeldMore(front, src);
        ClashMore(acc.cities, front, src, Held(before.value.cities));
      } else {
        var i, k :| 0 <= i < |acc.cities| && 0 <= k < |front| && acc.cities[i].slug == front[k].slug &&
          acc.cities[i].name != front[k].name;
        assert child.cities[..n][k] == front[k];
      }
    }
  }

  lemma HeldNone()
    ensures Held([]) == {}
  {
  }

  lemma ClashMore(held: seq<City>, front: seq<City>, src: City, all: set<(string, string)>)
    requires !SlugClash(held, front) && all == Held(held) + Held(front)
    requires forall k :: 0 <= k < |front| ==> front[k].slug != src.slug
    ensures Collides(all, src.slug, src.name) <==> SlugClash(held, front + [src])
  {
    var more := front + [src];
    if other :| (src.slug, other) in all && other != src.name {
      var i :| 0 <= i < |held| && (held[i].slug, held[i].name) == (src.slug, other);
      assert held[i].slug == more[|front|].slug;
    }
    if i, k :| 0 <= i < |held| && 0 <= k < |more| && held[i].slug == more[k].slug && held[i].name != more[k].name {
      assert k == |front|;
      HeldBy(held, i);
    }
  }

  /** Merging an include fails exactly when it gives a slug that the parent already holds another name. */
  lemma MergeFailsIff(acc: Acc, child: Config, incAbs: string, env: Option<real>, id: Identity)
    requires DistinctSlugs(acc.cities) && DistinctSlugs(child.cities)
    ensures MergeCities(acc, child, |child.cities|, incAbs, env, id).Err? <==> SlugClash(acc.cities, child.cities)
  {
    MergeHeld(acc, child, |child.cities|, incAbs, env, id);
    assert child.cities[..|child.cities|] == child.cities;
  }

  // ---------------------------------------------------- names, chain by chain

  /** A file reached from the root gives the slug this name. */
  ghost predicate Named(w: World, root: Path, slug: string, name: string) {
    exists chain: seq<Path>, c: City :: NamedAt(w, root, chain, c, slug, name)
  }

  ghost predicate NamedAt(w: World, root: Path, chain: seq<Path>, c: City, slug: string, name: string) {
    Reaches(w, root, chain) && Declares(w, chain, c) && c.slug == slug && c.name == name
  }

  /** A name given from the root is given by the root itself or from one of its includes. */
  lemma NamedStep(w: World, root: Path, slug: string, name: string)
    requires root in w.files
    ensures Named(w, root, slug, name) <==>
            (slug, name) in Held(w.files[root].config.cities) ||
            exists k :: 0 <= k < |w.files[root].config.includes| &&
                        Named(w, w.files[root].config.includes[k].path, slug, name)
  {
    hide IncludeChain, Held;
    var f := w.files[root].config;
    if Named(w, root, slug, name) {
      var chain: seq<Path>, c: City :| NamedAt(w, root, chain, c, slug, name);
      if |chain| == 1 {
        var i :| 0 <= i < |f.cities| && f.cities[i] == c;
        HeldBy(f.cities, i);
      } else {
        ChainFrom(w, root, chain);
        var k :| 0 <= k < |f.includes| && f.includes[k].path == chain[1];
        assert NamedAt(w, f.includes[k].path, chain[1..], c, slug, name);
      }
    }
    if (slug, name) in Held(f.cities) {
      var i := HeldAt(f.cities, slug, name);
      ChainOfOne(w, root);
      assert NamedAt(w, root, [root], f.cities[i], slug, name);
    }
    if k :| 0 <= k < |f.includes| && Named(w, f.includes[k].path, slug, name) {
      NamedThrough(w, root, f.includes[k].path, slug, name);
    }
  }

  lemma NamedThrough(w: World, root: Path, via: Path, slug: string, name: string)
    requires Includes(w, root, via) && Named(w, via, slug, name)
    ensures Named(w, root, slug, name)
  {
    hide IncludeChain;
    var chain: seq<Path>, c: City :| NamedAt(w, via, chain, c, slug, name);
    ChainThrough(w, root, chain);
    assert NamedAt(w, root, [root] + chain, c, slug, name);
  }

  /** One include folded: what the parent was, what the include resolved to, and their merge. */
  lemma OneFolded(w: World, f: File, i: nat, fuel: nat)
    requires 0 < i <= |f.config.includes| && PlainIncludes(w, f, i, fuel).Ok?
    ensures fuel > 0 && PlainIncludes(w, f, i - 1, fuel).Ok? && Plain(w, f.config.includes[i - 1].path, fuel - 1).Ok?
    ensures var p := f.config.includes[i - 1].path;
            var part, child := PlainIncludes(w, f, i - 1, fuel).value, Plain(w, p, fuel - 1).value;
            var merged := MergeCities(part.acc, child.config, |child.config.cities|, p, w.env,
                                      SourceIdentity(w, child.config, p, child.blobs));
            merged.Ok? && PlainIncludes(w, f, i, fuel).value == Partial(merged.value, part.blobs + child.blobs)
  {
    hide MergeCities;
  }

  /** A parent under assembly holds the names of its own cities and those its includes so far give. */
  lemma {:induction false} IncludesHeld(w: World, f: File, i: nat, fuel: nat, slug: string, name: string)
    requires ValidWorld(w) && i <= |f.config.includes| && PlainIncludes(w, f, i, fuel).Ok?
    requires DistinctSlugs(f.config.cities)
    ensures (slug, name) in Held(PlainIncludes(w, f, i, fuel).value.acc.cities) <==>
            (slug, name) in Held(f.config.cities) ||
            exists k :: 0 <= k < i && Named(w, f.config.includes[k].path, slug, name)
    decreases fuel, 0, i
  {
    hide MergeCities, Named, Held, DistinctSlugs, SlugClash, Plain, ValidWorld;
    if i > 0 {
      OneFolded(w, f, i, fuel);
      hide PlainIncludes;
      IncludesHeld(w, f, i - 1, fuel, slug, name);
      IncludesDistinct(w, f, i - 1, fuel);
      var p := f.config.includes[i - 1].path;
      var child := Plain(w, p, fuel - 1).value;
      ResolvedHeld(w, p, fuel - 1, slug, name);
      ResolvedDistinct(w, p, fuel - 1);
      MergeHeld(PlainIncludes(w, f, i - 1, fuel).value.acc, child.config, |child.config.cities|, p, w.env,
                SourceIdentity(w, child.config, p, child.blobs));
      assert child.config.cities[..|child.config.cities|] == child.config.cities;
    }
  }

  /** A resolved config holds a slug under exactly the names that the files reached from it give it. */
  lemma {:induction false} ResolvedHeld(w: World, path: Path, n: nat, slug: string, name: string)
    requires ValidWorld(w) && Plain(w, path, n).Ok?
    ensures (slug, name) in Held(Plain(w, path, n).value.config.cities) <==> Named(w, path, slug, name)
    decreases n, 1, 0
  {
    hide FoldInclude, Named, Held, DistinctSlugs;
    var f := w.files[path];
    assert ValidFile(f.config);
    IncludesHeld(w, f, |f.config.includes|, n, slug, name);
    NamedStep(w, path, slug, name);
  }

  /** No two files reached from the root give one slug two names. */
  ghost predicate OneName(w: World, root: Path) {
    forall slug, a, b :: Named(w, root, slug, a) && Named(w, root, slug, b) ==> a == b
  }

  /** All declarations of a slug in reach of a resolved file carry one name, the file's own included. */
  lemma ResolvedHasOneName(w: World, path: Path, n: nat)
    requires ValidWorld(w) && Plain(w, path, n).Ok?
    ensures OneName(w, path)
  {
    hide Named, Held;
    var cities := Plain(w, path, n).value.config.cities;
    ResolvedDistinct(w, path, n);
    forall slug, a, b | Named(w, path, slug, a) && Named(w, path, slug, b)
      ensures a == b
    {
      ResolvedHeld(w, path, n, slug, a);
      ResolvedHeld(w, path, n, slug, b);
      var i := HeldAt(cities, slug, a);
      var k := HeldAt(cities, slug, b);
      assert i == k;
    }
  }

  // ------------------------------------------------------- when it resolves

  /** The file that a chain from the root ends at is readable, and every include in it has a path. */
  ghost predicate Readable(w: World, chain: seq<Path>) {
    && |chain| > 0 && End(chain) in w.files
    && forall k :: 0 <= k < |w.files[End(chain)].config.includes| ==>
         w.files[End(chain)].config.includes[k].path != ""
  }

  /** Every chain of includes from the root is at most n files long and ends at a readable file. */
  ghost predicate AllReadable(w: World, root: Path, n: nat) {
    forall chain: seq<Path> :: Reaches(w, root, chain) ==> |chain| <= n && Readable(w, chain)
  }

  lemma {:induction false} ResolvedIsReadable(w: World, root: Path, n: nat, chain: seq<Path>)
    requires Plain(w, root, n).Ok? && Reaches(w, root, chain)
    ensures |chain| <= n && Readable(w, chain)
    decreases |chain|
  {
    hide FoldInclude;
    if |chain| > 1 {
      ChainFrom(w, root, chain);
      IncludedResolves(w, root, chain[1], n);
      ResolvedIsReadable(w, chain[1], n - 1, chain[1..]);
    } else {
      var f := w.files[root];
      forall k | 0 <= k < |f.config.includes|
        ensures f.config.includes[k].path != ""
      {
        StepResolves(w, f, |f.config.includes|, k, n);
      }
    }
  }

  lemma IncludedIsReadable(w: World, root: Path, via: Path, n: nat)
    requires n > 0 && AllReadable(w, root, n) && Includes(w, root, via)
    ensures AllReadable(w, via, n - 1)
  {
    hide Readable, IncludeChain;
    forall chain: seq<Path> | Reaches(w, via, chain)
      ensures |chain| <= n - 1 && Readable(w, chain)
    {
      ChainThrough(w, root, chain);
      SameEnd(w, chain, [root] + chain);
    }
  }

  lemma SameEnd(w: World, a: seq<Path>, b: seq<Path>)
    requires |a| > 0 && |b| > 0 && End(a) == End(b)
    ensures Readable(w, a) == Readable(w, b)
  {
  }

  lemma IncludedHasOneName(w: World, root: Path, via: Path)
    requires OneName(w, root) && Includes(w, root, via)
    ensures OneName(w, via)
  {
    hide Named;
    forall slug, a, b | Named(w, via, slug, a) && Named(w, via, slug, b)
      ensures a == b
    {
      NamedThrough(w, root, via, slug, a);
      NamedThrough(w, root, via, slug, b);
    }
  }

  /** With readable includes and no clash of names, folding goes through. */
  lemma {:induction false} FoldsThrough(w: World, root: Path, i: nat, n: nat)
    requires ValidWorld(w) && root in w.files && OneName(w, root) && n > 0
    requires i <= |w.files[root].config.includes|
    requires forall k :: 0 <= k < |w.files[root].config.includes| ==>
               var p := w.files[root].config.includes[k].path; p != "" && Plain(w, p, n - 1).Ok?
    ensures PlainIncludes(w, w.files[root], i, n).Ok?
  {
    hide MergeCities, Named, Held, DistinctSlugs, SlugClash, Plain, ValidForecast, ForecastIsZero, OneName;
    var f := w.files[root];
    if i > 0 {
      FoldsThrough(w, root, i - 1, n);
      var p := f.config.includes[i - 1].path;
      assert ValidFile(f.config);
      IncludesDistinct(w, f, i - 1, n);
      var part, child := PlainIncludes(w, f, i - 1, n).value, Plain(w, p, n - 1).value;
      ResolvedDistinct(w, p, n - 1);
      MergeFailsIff(part.acc, child.config, p, w.env, SourceIdentity(w, child.config, p, child.blobs));
      if SlugClash(part.acc.cities, child.config.cities) {
        ClashesAbove(w, root, i, n, part.acc.cities, child.config.cities);
      }
    }
  }

  lemma ClashesAbove(w: World, root: Path, i: nat, n: nat, held: seq<City>, more: seq<City>)
    requires ValidWorld(w) && root in w.files && n > 0 && 0 < i <= |w.files[root].config.includes|
    requires var f := w.files[root];
             && PlainIncludes(w, f, i - 1, n).Ok? && held == PlainIncludes(w, f, i - 1, n).value.acc.cities
             && Plain(w, f.config.includes[i - 1].path, n - 1).Ok?
             && more == Plain(w, f.config.includes[i - 1].path, n - 1).value.config.cities
    requires SlugClash(held, more)
    ensures !OneName(w, root)
  {
    hide Named, Held, PlainIncludes, Plain, DistinctSlugs, ValidForecast, ForecastIsZero;
    var f := w.files[root];
    assert ValidFile(f.config);
    var j, k :| 0 <= j < |held| && 0 <= k < |more| && held[j].slug == more[k].slug && held[j].name != more[k].name;
    var slug := held[j].slug;
    HeldBy(held, j);
    HeldBy(more, k);
    IncludesHeld(w, f, i - 1, n, slug, held[j].name);
    ResolvedHeld(w, f.config.includes[i - 1].path, n - 1, slug, more[k].name);
    NamedStep(w, root, slug, held[j].name);
    NamedStep(w, root, slug, more[k].name);
  }

  /** Plain recursion n files deep succeeds if and only if every chain of includes from the root is at most
      n files long and reaches readable files, and no two of them give one slug two names. */
  lemma {:induction false} ResolvesIff(w: World, root: Path, n: nat)
    requires ValidWorld(w)
    ensures Plain(w, root, n).Ok? <==> AllReadable(w, root, n) && OneName(w, root)
    decreases n
  {
    hide Readable, Named, FoldInclude, IncludeChain;
    if Plain(w, root, n).Ok? {
      ResolvedHasOneName(w, root, n);
      forall chain: seq<Path> | Reaches(w, root, chain)
        ensures |chain| <= n && Readable(w, chain)
      {
        ResolvedIsReadable(w, root, n, chain);
      }
    }
    if AllReadable(w, root, n) && OneName(w, root) {
      ChainOfOne(w, root);
      RootReadable(w, root);
      var f := w.files[root];
      forall k | 0 <= k < |f.config.includes|
        ensures f.config.includes[k].path != "" && Plain(w, f.config.includes[k].path, n - 1).Ok?
      {
        var p := f.config.includes[k].path;
        assert Includes(w, root, p);
        IncludedIsReadable(w, root, p, n);
        IncludedHasOneName(w, root, p);
        ResolvesIff(w, p, n - 1);
      }
      FoldsThrough(w, root, |f.config.includes|, n);
    }
  }

  lemma RootReadable(w: World, root: Path)
    requires Readable(w, [root])
    ensures root in w.files
    ensures forall k :: 0 <= k < |w.files[root].config.includes| ==> w.files[root].config.includes[k].path != ""
  {
  }

  // --------------------------------------------------------- bytes that count

  /** A file reached from the root has these bytes. */
  ghost predicate Bytes(w: World, root: Path, blob: string) {
    exists chain: seq<Path> :: BytesAt(w, root, chain, blob)
  }

  ghost predicate BytesAt(w: World, root: Path, chain: seq<Path>, blob: string) {
    Reaches(w, root, chain) && End(chain) in w.files && w.files[End(chain)].blob == blob
  }

  lemma BytesStep(w: World, root: Path, blob: string)
    requires root in w.files
    ensures Bytes(w, root, blob) <==>
            blob == w.files[root].blob ||
            exists k :: 0 <= k < |w.files[root].config.includes| &&
                        Bytes(w, w.files[root].config.includes[k].path, blob)
  {
    hide IncludeChain;
    var f := w.files[root].config;
    if Bytes(w, root, blob) {
      var chain: seq<Path> :| BytesAt(w, root, chain, blob);
      if |chain| > 1 {
        ChainFrom(w, root, chain);
        var k :| 0 <= k < |f.includes| && f.includes[k].path == chain[1];
        assert BytesAt(w, f.includes[k].path, chain[1..], blob);
      }
    }
    if blob == w.files[root].blob {
      ChainOfOne(w, root);
      assert BytesAt(w, root, [root], blob);
    }
    if k :| 0 <= k < |f.includes| && Bytes(w, f.includes[k].path, blob) {
      var chain: seq<Path> :| BytesAt(w, f.includes[k].path, chain, blob);
      assert Includes(w, root, f.includes[k].path);
      ChainThrough(w, root, chain);
      assert BytesAt(w, root, [root] + chain, blob);
    }
  }

  lemma {:induction false} IncludesBytes(w: World, f: File, i: nat, fuel: nat, blob: string)
    requires i <= |f.config.includes| && PlainIncludes(w, f, i, fuel).Ok?
    ensures var blobs := PlainIncludes(w, f, i, fuel).value.blobs;
            && |blobs| > 0 && blobs[0] == f.blob
            && (blob in blobs <==>
                blob == f.blob || exists k :: 0 <= k < i && Bytes(w, f.config.includes[k].path, blob))
    decreases fuel, 0, i
  {
    hide MergeCities, Bytes, Plain;
    if i > 0 {
      OneFolded(w, f, i, fuel);
      hide PlainIncludes;
      IncludesBytes(w, f, i - 1, fuel, blob);
      HashedAreReached(w, f.config.includes[i - 1].path, fuel - 1, blob);
    }
  }

  /** The bytes that a resolved file's content hash covers are its own, first, and those of exactly the
      files reached from it. */
  lemma {:induction false} HashedAreReached(w: World, path: Path, n: nat, blob: string)
    requires Plain(w, path, n).Ok?
    ensures var blobs := Plain(w, path, n).value.blobs;
            |blobs| > 0 && blobs[0] == w.files[path].blob && (blob in blobs <==> Bytes(w, path, blob))
    decreases n, 1, 0
  {
    hide FoldInclude, Bytes;
    var f := w.files[path];
    IncludesBytes(w, f, |f.config.includes|, n, blob);
    BytesStep(w, path, blob);
  }
}
