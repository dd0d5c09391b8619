/** Include resolution as plain recursion, with no cache and no depth cap: what the memoised loader of
    internal/config/include.go is measured against, and why what resolves is acyclic. */
module IncludePlain {
  import opened IncludeConfig
  import opened IncludeMerge

  type Path = string

  /** A readable, regular, valid config file: its parse and its bytes. */
  datatype File = File(config: Config, blob: string)

  /** What the loader reads: the files that parse, the env's hex edge, and the two hashes. */
  datatype World = World(files: map<Path, File>, env: Option<real>, hashBlobs: seq<string> -> string,
                         hashPath: Path -> string)

  ghost predicate ValidWorld(w: World) {
    && (forall p :: p in w.files ==> ValidFile(w.files[p].config))
    && (forall p: Path :: w.hashPath(p) != "")
    && (forall bs: seq<string> :: w.hashBlobs(bs) != "")
    && (w.env.Some? ==> w.env.value > 0.0)
  }

  datatype Resolved = Resolved(config: Config, blobs: seq<string>)

  /** sourceIdentity: the id and hash Load would compute for the included file itself. */
  function SourceIdentity(w: World, child: Config, path: Path, blobs: seq<string>): Identity {
    Identity(if child.configID == "" then w.hashPath(path) else child.configID, w.hashBlobs(blobs))
  }

  // --------------------------------------------------------- plain recursion

  /** A file being assembled: the merge so far and the blobs so far. */
  datatype Partial = Partial(acc: Acc, blobs: seq<string>)

  function Begin(f: File): Partial {
    Partial(Acc(f.config.cities, map[], []), [f.blob])
  }

  /** Folds one resolved include into the parent. */
  function FoldInclude(w: World, part: Partial, path: Path, child: Resolved): Result<Partial> {
    var id := SourceIdentity(w, child.config, path, child.blobs);
    var merged := MergeCities(part.acc, child.config, |child.config.cities|, path, w.env, id);
    if merged.Err? then Err else Ok(Partial(merged.value, part.blobs + child.blobs))
  }

  /** The parent after its first i includes, each resolved by plain recursion to the given depth. */
  function PlainIncludes(w: World, f: File, i: nat, fuel: nat): Result<Partial>
    requires i <= |f.config.includes|
    decreases fuel, 0, i
  {
    if i == 0 then Ok(Begin(f))
    else
      var before := PlainIncludes(w, f, i - 1, fuel);
      if before.Err? then Err
      else if f.config.includes[i - 1].path == "" || fuel == 0 then Err
      else
        var child := Plain(w, f.config.includes[i - 1].path, fuel - 1);
        if child.Err? then Err else FoldInclude(w, before.value, f.config.includes[i - 1].path, child.value)
  }

  function Finish(f: File, part: Partial): Resolved {
    Resolved(f.config.(cities := part.acc.cities), part.blobs)
  }

  /** Resolution with no cache: fuel is how many files deep the nesting may go, Err when it runs out. */
  function Plain(w: World, path: Path, fuel: nat): Result<Resolved>
    decreases fuel, 1, 0
  {
    if fuel == 0 || path !in w.files then Err
    else
      var f := w.files[path];
      var part := PlainIncludes(w, f, |f.config.includes|, fuel);
      if part.Err? then Err else Ok(Finish(f, part.value))
  }

  /** Uncapped plain recursion terminates with r. */
  ghost predicate Resolves(w: World, path: Path, r: Resolved) {
    exists n: nat :: Plain(w, path, n) == Ok(r)
  }

  lemma {:induction false} MoreFuelIncludes(w: World, f: File, i: nat, n: nat, m: nat)
    requires i <= |f.config.includes| && n <= m && PlainIncludes(w, f, i, n).Ok?
    ensures PlainIncludes(w, f, i, m) == PlainIncludes(w, f, i, n)
    decreases n, 0, i
  {
    hide FoldInclude;
    if i > 0 {
      MoreFuelIncludes(w, f, i - 1, n, m);
      MoreFuel(w, f.config.includes[i - 1].path, n - 1, m - 1);
    }
  }

  /** A result, once reached, does not depend on the fuel. */
  lemma {:induction false} MoreFuel(w: World, path: Path, n: nat, m: nat)
    requires n <= m && Plain(w, path, n).Ok?
    ensures Plain(w, path, m) == Plain(w, path, n)
    decreases n, 1, 0
  {
    hide FoldInclude;
    var f := w.files[path];
    MoreFuelIncludes(w, f, |f.config.includes|, n, m);
  }

  lemma ResolvesUnique(w: World, path: Path, r: Resolved, s: Resolved)
    requires Resolves(w, path, r) && Resolves(w, path, s)
    ensures r == s
  {
    var n: nat :| Plain(w, path, n) == Ok(r);
    var m: nat :| Plain(w, path, m) == Ok(s);
    MoreFuel(w, path, n, n + m);
    MoreFuel(w, path, m, n + m);
  }

  // ------------------------------------------------------------- acyclicity

  ghost predicate Includes(w: World, a: Path, b: Path) {
    a in w.files && exists i :: 0 <= i < |w.files[a].config.includes| && w.files[a].config.includes[i].path == b
  }

  /** Each file of the chain includes the next. */
  ghost predicate IncludeChain(w: World, chain: seq<Path>) {
    forall k :: 0 <= k < |chain| - 1 ==> Includes(w, chain[k], chain[k + 1])
  }

  lemma {:induction false} FoldedIncludeResolves(w: World, f: File, i: nat, k: nat, fuel: nat)
    requires k < i <= |f.config.includes| && PlainIncludes(w, f, i, fuel).Ok?
    ensures fuel > 0 && Plain(w, f.config.includes[k].path, fuel - 1).Ok?
    ensures PlainIncludes(w, f, k, fuel).Ok?
  {
    hide FoldInclude;
    if k < i - 1 {
      FoldedIncludeResolves(w, f, i - 1, k, fuel);
    }
  }

  lemma IncludedResolves(w: World, a: Path, b: Path, n: nat)
    requires Plain(w, a, n).Ok? && Includes(w, a, b)
    ensures n > 0 && Plain(w, b, n - 1).Ok?
  {
    hide FoldInclude;
    var f := w.files[a];
    var k :| 0 <= k < |f.config.includes| && f.config.includes[k].path == b;
    FoldedIncludeResolves(w, f, |f.config.includes|, k, n);
  }

  /** The least fuel that resolves a path. */
  ghost function Height(w: World, path: Path, n: nat): (h: nat)
    requires Plain(w, path, n).Ok?
    ensures h <= n && Plain(w, path, h).Ok?
    ensures forall m: nat :: Plain(w, path, m).Ok? ==> h <= m
  {
    if n == 0 || Plain(w, path, n - 1).Err? then
      assert forall m: nat :: Plain(w, path, m).Ok? ==> n <= m by {
        forall m: nat | Plain(w, path, m).Ok? && m < n
          ensures false
        {
          MoreFuel(w, path, m, n - 1);
        }
      }
      n
    else Height(w, path, n - 1)
  }

  lemma IncludedIsLower(w: World, a: Path, b: Path, n: nat)
    requires Plain(w, a, n).Ok? && Includes(w, a, b)
    ensures Plain(w, b, n).Ok? && Height(w, b, n) < Height(w, a, n)
  {
    var h := Height(w, a, n);
    IncludedResolves(w, a, b, h);
    MoreFuel(w, b, h - 1, n);
  }

  lemma {:induction false} ChainDescends(w: World, chain: seq<Path>, n: nat, k: nat)
    requires 0 < k < |chain| && IncludeChain(w, chain) && Plain(w, chain[0], n).Ok?
    ensures Plain(w, chain[k], n).Ok? && Height(w, chain[k], n) < Height(w, chain[0], n)
  {
    if k > 1 {
      ChainDescends(w, chain, n, k - 1);
    }
    assert Includes(w, chain[k - 1], chain[k]);
    IncludedIsLower(w, chain[k - 1], chain[k], n);
  }

  /** When a root resolves, no chain of includes from it meets the same file twice. */
  lemma ResolvedIsAcyclic(w: World, root: Path, r: Resolved, chain: seq<Path>)
    requires Resolves(w, root, r) && |chain| > 0 && chain[0] == root && IncludeChain(w, chain)
    ensures forall i, j :: 0 <= i < j < |chain| ==> chain[i] != chain[j]
  {
    var n: nat :| Plain(w, root, n) == Ok(r);
    forall i, j | 0 <= i < j < |chain|
      ensures chain[i] != chain[j]
    {
      if i > 0 {
        ChainDescends(w, chain, n, i);
      }
      assert IncludeChain(w, chain[i..]) by {
        forall k | 0 <= k < |chain[i..]| - 1
          ensures Includes(w, chain[i..][k], chain[i..][k + 1])
        {
          assert Includes(w, chain[i + k], chain[i + k + 1]);
        }
      }
      ChainDescends(w, chain[i..], n, j - i);
    }
  }

  // ----------------------------------------------------------- the depth cap

  const MaxIncludeDepth: nat := 32

  /** Plain recursion from path fits in what the depth cap leaves at this depth. */
  ghost predicate Fits(w: World, path: Path, depth: nat) {
    depth <= MaxIncludeDepth && Plain(w, path, MaxIncludeDepth + 1 - depth).Ok?
  }

  /** a needs more nesting than b, so a is not among b's includes. */
  ghost predicate Taller(w: World, a: Path, b: Path) {
    exists n: nat :: Plain(w, b, n).Ok? && Plain(w, a, n).Err?
  }

  lemma NoFuel(w: World, path: Path)
    ensures Plain(w, path, 0).Err?
  {
  }

  lemma IncludedFits(w: World, a: Path, b: Path, depth: nat, ancestors: set<Path>)
    requires Fits(w, a, depth) && Includes(w, a, b)
    requires forall x :: x in ancestors ==> Taller(w, x, a)
    ensures Fits(w, b, depth + 1)
    ensures forall x :: x in ancestors + {a} ==> Taller(w, x, b)
  {
    hide Plain, IncludeChain;
    var n := MaxIncludeDepth + 1 - depth;
    NoFuel(w, b);
    IncludedResolves(w, a, b, n);
    var h := Height(w, a, n);
    IncludedResolves(w, a, b, h);
    assert Plain(w, a, h - 1).Err?;
    assert Taller(w, a, b);
    forall x | x in ancestors
      ensures Taller(w, x, b)
    {
      var m: nat :| Plain(w, a, m).Ok? && Plain(w, x, m).Err?;
      IncludedResolves(w, a, b, m);
      MoreFuel(w, b, m - 1, m);
    }
  }

  /** Plain recursion reaches part after f's first i includes. */
  ghost predicate PartlyResolved(w: World, f: File, i: nat, part: Partial) {
    i <= |f.config.includes| && exists n: nat :: PlainIncludes(w, f, i, n) == Ok(part)
  }

  lemma PlainStart(w: World, f: File)
    ensures PartlyResolved(w, f, 0, Begin(f))
  {
    assert PlainIncludes(w, f, 0, 0) == Ok(Begin(f));
  }

  lemma PlainNext(w: World, f: File, i: nat, part: Partial, child: Resolved)
    requires i < |f.config.includes| && f.config.includes[i].path != ""
    requires PartlyResolved(w, f, i, part) && Resolves(w, f.config.includes[i].path, child)
    ensures var next := FoldInclude(w, part, f.config.includes[i].path, child);
            next.Ok? ==> PartlyResolved(w, f, i + 1, next.value)
  {
    hide FoldInclude;
    var n: nat :| PlainIncludes(w, f, i, n) == Ok(part);
    var m: nat :| Plain(w, f.config.includes[i].path, m) == Ok(child);
    MoreFuelIncludes(w, f, i, n, n + m + 1);
    MoreFuel(w, f.config.includes[i].path, m, n + m);
    assert PlainIncludes(w, f, i + 1, n + m + 1) == FoldInclude(w, part, f.config.includes[i].path, child);
  }

  lemma PlainEnd(w: World, path: Path, part: Partial)
    requires path in w.files && PartlyResolved(w, w.files[path], |w.files[path].config.includes|, part)
    ensures Resolves(w, path, Finish(w.files[path], part))
  {
    var f := w.files[path];
    var n: nat :| PlainIncludes(w, f, |f.config.includes|, n) == Ok(part);
    MoreFuelIncludes(w, f, |f.config.includes|, n, n + 1);
    assert Plain(w, path, n + 1) == Ok(Finish(f, part));
  }

  /** When plain recursion fits, every include has a path. */
  lemma PromisedInclude(w: World, path: Path, i: nat, depth: nat)
    requires Fits(w, path, depth) && i < |w.files[path].config.includes|
    ensures w.files[path].config.includes[i].path != ""
  {
    var f := w.files[path];
    StepResolves(w, f, |f.config.includes|, i, MaxIncludeDepth + 1 - depth);
  }

  lemma {:induction false} StepResolves(w: World, f: File, n: nat, i: nat, fuel: nat)
    requires i < n <= |f.config.includes| && PlainIncludes(w, f, n, fuel).Ok?
    ensures PlainIncludes(w, f, i + 1, fuel).Ok? && f.config.includes[i].path != ""
  {
    hide FoldInclude;
    if i < n - 1 {
      StepResolves(w, f, n - 1, i, fuel);
    }
  }

  /** When plain recursion fits, every fold succeeds. */
  lemma PromisedFold(w: World, path: Path, i: nat, depth: nat, part: Partial, child: Resolved)
    requires Fits(w, path, depth) && i < |w.files[path].config.includes|
    requires var f := w.files[path];
             PartlyResolved(w, f, i, part) && Resolves(w, f.config.includes[i].path, child)
    ensures FoldInclude(w, part, w.files[path].config.includes[i].path, child).Ok?
  {
    hide FoldInclude;
    var f := w.files[path];
    var fuel := MaxIncludeDepth + 1 - depth;
    var p := f.config.includes[i].path;
    StepResolves(w, f, |f.config.includes|, i, fuel);
    FoldedIncludeResolves(w, f, |f.config.includes|, i, fuel);
    var n: nat :| PlainIncludes(w, f, i, n) == Ok(part);
    MoreFuelIncludes(w, f, i, n, n + fuel);
    MoreFuelIncludes(w, f, i, fuel, n + fuel);
    assert Resolves(w, p, Plain(w, p, fuel - 1).value);
    ResolvesUnique(w, p, child, Plain(w, p, fuel - 1).value);
  }
}
