/** Whole-game properties of internal/game/game.go: splitting ticks, what every action keeps, the
    treasury's books, cost ranks, and what the out-of-funds verdict does and does not promise. */
module GameLaws {
  import opened RealMath
  import opened CostCurve
  import opened GameTick

  // ---------------------------------------------------------- splitting ticks

  ghost predicate Composes(exp: ExpFn) {
    forall a: real, b: real :: exp(a + b) == exp(a) * exp(b)
  }

  ghost predicate NonIncreasing(anchors: seq<Anchor>) {
    forall p: real, q: real :: p <= q ==> CostAt(anchors, p) >= CostAt(anchors, q)
  }

  ghost predicate NonNegative(anchors: seq<Anchor>) {
    forall p: real :: CostAt(anchors, p) >= 0.0
  }

  ghost predicate SoundHex(h: HexState) {
    h.k > 0.0 && h.roadArea >= 0.0 && 0.0 <= h.pci <= 100.0 && (h.closed <==> h.pci <= ClosureEpsilon)
  }

  ghost predicate SoundBoard(hexes: seq<HexState>) {
    forall i :: 0 <= i < |hexes| ==> SoundHex(hexes[i])
  }

  lemma StrictShare(p: real, e: real)
    requires p >= 0.0 && 0.0 < e < 1.0
    ensures 0.0 <= Part(p, e) <= p && (p > 0.0 ==> 0.0 < Part(p, e) < p)
  {
  }

  lemma Elapses(k: real, dt: real)
    requires k > 0.0 && dt > 0.0
    ensures Part(k, dt) > 0.0
  {
  }

  lemma FadesFurther(exp: ExpFn, h: HexState, dt: real)
    requires h.k > 0.0 && h.pci >= 0.0 && dt > 0.0
    ensures 0.0 <= Faded(exp, h, dt) <= h.pci && (h.pci > 0.0 ==> 0.0 < Faded(exp, h, dt) < h.pci)
  {
    hide Part;
    Elapses(h.k, dt);
    StrictShare(h.pci, exp(-Part(h.k, dt)));
  }

  /** Decay composes, also through a closure. */
  lemma DecaySplit(exp: ExpFn, h: HexState, a: real, b: real)
    requires Composes(exp) && SoundHex(h) && a > 0.0 && b > 0.0
    ensures DecayHex(exp, DecayHex(exp, h, a), b) == DecayHex(exp, h, a + b)
    ensures SoundHex(DecayHex(exp, h, a))
    ensures !h.closed ==> 0.0 <= Faded(exp, h, a + b) <= Faded(exp, h, a) <= h.pci
    ensures !h.closed && !DecayHex(exp, h, a).closed ==> Faded(exp, DecayHex(exp, h, a), b) == Faded(exp, h, a + b)
  {
    hide Faded, Composes;
    if !h.closed {
      var pa := Faded(exp, h, a);
      FadesFurther(exp, h, a);
      FadeSplit(exp, h, a, b);
      FadesFurther(exp, h.(pci := pa), b);
      assert DecayHex(exp, h, a).closed || DecayHex(exp, h, a) == h.(pci := pa);
    }
  }

  lemma FadeSplit(exp: ExpFn, h: HexState, a: real, b: real)
    requires Composes(exp)
    ensures Faded(exp, h.(pci := Faded(exp, h, a)), b) == Faded(exp, h, a + b)
  {
    hide Part, Composes;
    var ka, kb := Part(h.k, a), Part(h.k, b);
    ScalesOver(h.k, a, b);
    ComposesAt(exp, -ka, -kb);
    assert -ka + -kb == -(ka + kb);
    Associates(h.pci, exp(-ka), exp(-kb));
  }

  lemma ComposesAt(exp: ExpFn, a: real, b: real)
    requires Composes(exp)
    ensures exp(a + b) == Part(exp(a), exp(b))
  {
  }

  lemma Associates(p: real, a: real, b: real)
    ensures Part(Part(p, a), b) == Part(p, Part(a, b))
  {
  }

  lemma NeedForOrder(anchors: seq<Anchor>, area: real, p: real, q: real, d: real, e: real)
    requires NonIncreasing(anchors) && NonNegative(anchors) && area >= 0.0 && p <= q && d >= 0.0 && e >= 0.0
    ensures NeedFor(anchors, area, q, d) <= NeedFor(anchors, area, p, d)
    ensures NeedFor(anchors, area, p, d) + NeedFor(anchors, area, p, e) == NeedFor(anchors, area, p, d + e)
    ensures NeedFor(anchors, area, p, d) >= 0.0
  {
    var x, y := area * CostAt(anchors, q), area * CostAt(anchors, p);
    MulMonotone(CostAt(anchors, q), CostAt(anchors, p), area, x, y);
    MulNonNegative(area, CostAt(anchors, p), y);
    MulMonotone(x, y, d / 100.0, x * (d / 100.0), y * (d / 100.0));
    MulNonNegative(y, d / 100.0, y * (d / 100.0));
    assert y * (d / 100.0) + y * (e / 100.0) == y * ((d + e) / 100.0);
  }

  /** Pricing the loss in two steps never costs more than at once. */
  lemma NeedSplit(rules: Rules, h: HexState, a: real, b: real)
    requires Composes(rules.exp) && NonIncreasing(rules.anchors) && NonNegative(rules.anchors)
    requires SoundHex(h) && a > 0.0 && b > 0.0
    ensures 0.0 <= Need(rules, h, a)
    ensures Need(rules, h, a) + Need(rules, DecayHex(rules.exp, h, a), b) <= Need(rules, h, a + b)
  {
    hide NeedFor, Faded, NonIncreasing, NonNegative, Composes;
    if !h.closed {
      DecaySplit(rules.exp, h, a, b);
      FadesFurther(rules.exp, h, a);
      FadesFurther(rules.exp, h, a + b);
      var p, pa, pab := h.pci, Faded(rules.exp, h, a), Faded(rules.exp, h, a + b);
      NeedForOrder(rules.anchors, h.roadArea, pab, pa, p - pa, pa - pab);
      NeedForOrder(rules.anchors, h.roadArea, pa, pa, p - pa, 0.0);
      NeedForOrder(rules.anchors, h.roadArea, pab, pab, pa - pab, 0.0);
    }
  }

  /** Two steps of decay against one, for a whole board. */
  lemma BoardSplit(rules: Rules, hexes: seq<HexState>, a: real, b: real)
    requires Composes(rules.exp) && NonIncreasing(rules.anchors) && NonNegative(rules.anchors)
    requires SoundBoard(hexes) && a > 0.0 && b > 0.0
    ensures var mid := Decayed(rules.exp, hexes, a);
            && SoundBoard(mid) && Decayed(rules.exp, mid, b) == Decayed(rules.exp, hexes, a + b)
            && Sum(NeedsOver(rules, hexes, a)) + Sum(NeedsOver(rules, mid, b)) <= Sum(NeedsOver(rules, hexes, a + b))
            && Sum(NeedsOver(rules, hexes, a)) >= 0.0
  {
    hide DecayHex, Need, NonIncreasing, NonNegative, Composes, SoundHex;
    var mid := Decayed(rules.exp, hexes, a);
    forall i | 0 <= i < |hexes|
      ensures SoundHex(mid[i]) && DecayHex(rules.exp, mid[i], b) == DecayHex(rules.exp, hexes[i], a + b)
      ensures 0.0 <= Need(rules, hexes[i], a)
      ensures Need(rules, hexes[i], a) + Need(rules, mid[i], b) <= Need(rules, hexes[i], a + b)
    {
      DecaySplit(rules.exp, hexes[i], a, b);
      NeedSplit(rules, hexes[i], a, b);
    }
    var n := |hexes|;
    var first, second, once := NeedsOver(rules, hexes, a), NeedsOver(rules, mid, b), NeedsOver(rules, hexes, a + b);
    var both := seq(n, i requires 0 <= i < n => first[i] + second[i]);
    SumAdd(first, second, both, n);
    SumMonotone(both, once, n);
    SumOfNonNegatives(first, n);
  }

  /** A schedule of ticks. */
  function Tickings(rules: Rules, st: State, dts: seq<real>, n: nat): (after: State)
    requires st.hexes != [] && n <= |dts|
    ensures |after.hexes| == |st.hexes|
  {
    if n == 0 then st else Ticked(rules, Tickings(rules, st, dts, n - 1), dts[n - 1])
  }

  /** What one tick of length t leaves, but for a backlog that may be smaller. */
  ghost predicate AsOneTick(rules: Rules, st: State, t: real, after: State) {
    && after.hexes == Decayed(rules.exp, st.hexes, t) && SoundBoard(after.hexes)
    && after.simYears == st.simYears + t && after.treasury == st.treasury + Part(st.budgetRate, t)
    && after.budgetRate == st.budgetRate && after.spent == st.spent && after.treatments == st.treatments
    && after.backlog <= st.backlog + Sum(NeedsOver(rules, st.hexes, t))
  }

  lemma TickOnce(rules: Rules, st: State, dt: real)
    requires Composes(rules.exp) && NonIncreasing(rules.anchors) && NonNegative(rules.anchors)
    requires st.hexes != [] && SoundBoard(st.hexes) && st.status == Running && dt > 0.0
    ensures AsOneTick(rules, st, dt, Ticked(rules, st, dt))
    ensures var next := Advanced(rules, st, dt);
            Ticked(rules, st, dt) == next.(status := Recomputed(rules, next).status)
  {
    hide Composes, NonIncreasing, NonNegative, Loses, Decayed, NeedsOver, SoundBoard;
    BoardSplit(rules, st.hexes, dt, 1.0);
  }

  lemma TickAgain(rules: Rules, st: State, t: real, mid: State, dt: real)
    requires Composes(rules.exp) && NonIncreasing(rules.anchors) && NonNegative(rules.anchors)
    requires SoundBoard(st.hexes) && mid.hexes != [] && mid.status == Running && t > 0.0 && dt > 0.0
    requires AsOneTick(rules, st, t, mid)
    ensures AsOneTick(rules, st, t + dt, Ticked(rules, mid, dt))
  {
    hide Composes, NonIncreasing, NonNegative, Decayed, NeedsOver, SoundBoard, Part, Recomputed;
    BoardSplit(rules, st.hexes, t, dt);
    BoardSplit(rules, mid.hexes, dt, 1.0);
    TickOnce(rules, mid, dt);
    ScalesOver(st.budgetRate, t, dt);
  }

  lemma ScalesOver(rate: real, a: real, b: real)
    ensures Part(rate, a) + Part(rate, b) == Part(rate, a + b)
  {
  }

  /** Any schedule of ticks that keeps the game running ends, hex for hex and dollar for dollar, where
      one long tick would, with no more backlog; so it is lost only if the long tick is lost too. */
  lemma {:induction false} ScheduleIsOneTick(rules: Rules, st: State, dts: seq<real>, n: nat)
    requires Composes(rules.exp) && NonIncreasing(rules.anchors) && NonNegative(rules.anchors)
    requires st.hexes != [] && SoundBoard(st.hexes) && 0 < n <= |dts| && forall i :: 0 <= i < |dts| ==> dts[i] > 0.0
    requires forall i :: 0 <= i < n ==> Tickings(rules, st, dts, i).status == Running
    ensures SumUpTo(dts, n) > 0.0 && AsOneTick(rules, st, SumUpTo(dts, n), Tickings(rules, st, dts, n))
    ensures var once := Ticked(rules, st, SumUpTo(dts, n));
            once.status != Lost ==> Tickings(rules, st, dts, n).status == once.status
  {
    hide Composes, NonIncreasing, NonNegative, Decayed, NeedsOver, SoundBoard, Part, Advanced, AsOneTick, Ticked, Loses;
    var before := Tickings(rules, st, dts, n - 1);
    assert Tickings(rules, st, dts, 0) == st;
    if n == 1 {
      assert SumUpTo(dts, 1) == dts[0];
      TickOnce(rules, st, dts[0]);
    } else {
      ScheduleIsOneTick(rules, st, dts, n - 1);
      TickAgain(rules, st, SumUpTo(dts, n - 1), before, dts[n - 1]);
      TickOnce(rules, st, SumUpTo(dts, n));
      SoonerLost(rules, st, SumUpTo(dts, n), before, dts[n - 1]);
    }
  }

  /** The verdict depends on the backlog only in that more of it can lose the game. */
  lemma SoonerLost(rules: Rules, st: State, t: real, before: State, dt: real)
    requires st.hexes != [] && st.status == Running && before.status == Running && t > 0.0 && dt > 0.0 &&
             before.hexes != []
    requires AsOneTick(rules, st, t, Ticked(rules, before, dt))
    ensures Ticked(rules, st, t).status != Lost ==> Ticked(rules, before, dt).status == Ticked(rules, st, t).status
  {
    hide Decayed, NeedsOver, SoundBoard, Part, NetworkPCI, Closed;
    assert Advanced(rules, before, dt).backlog == Ticked(rules, before, dt).backlog;
  }

  /** A sound curve is all that splitting asks of the prices. */
  lemma SoundCurveSuits(anchors: seq<Anchor>)
    requires SoundCurve(anchors)
    ensures NonIncreasing(anchors) && NonNegative(anchors)
  {
    hide CostAt;
    forall p: real, q: real | p <= q
      ensures CostAt(anchors, p) >= CostAt(anchors, q)
    {
      CostNonIncreasing(anchors, p, q);
    }
    forall p: real
      ensures CostAt(anchors, p) >= 0.0
    {
      CostPositive(anchors, p);
    }
  }

  // ----------------------------------------------------- what every action keeps

  datatype Action =
    | Tick(dt: real)
    | Treat(id: string, tier: string)
    | Batch(ids: seq<string>, tier: string)
    | SetBudget(rate: real)

  function Do(rules: Rules, st: State, a: Action): State
    requires st.hexes != []
  {
    match a
    case Tick(dt) => Ticked(rules, st, dt)
    case Treat(id, tier) => Treated(rules, st, id, tier)
    case Batch(ids, tier) => TreatedBatch(rules, st, ids, tier)
    case SetBudget(rate) => st.(budgetRate := Max(0.0, rate))
  }

  ghost predicate SoundRules(rules: Rules) {
    && rules.tiers != [] && NonNegative(rules.anchors)
    && forall i :: 0 <= i < |rules.tiers| ==> rules.tiers[i].costPerSqM >= 0.0
  }

  /** No debt, no negative backlog, conditions in range, and closed exactly at the threshold. */
  ghost predicate Sound(st: State) {
    && st.hexes != [] && SoundBoard(st.hexes)
    && st.treasury >= 0.0 && st.budgetRate >= 0.0 && st.backlog >= 0.0 && st.spent >= 0.0
  }

  lemma StartIsSound(cfg: Config, offsets: (string, real) -> real)
    requires Accepted(cfg)
    ensures Sound(Start(cfg, offsets))
  {
    var board := Start(cfg, offsets).hexes;
    forall i | 0 <= i < |board|
      ensures SoundHex(board[i])
    {
      assert cfg.hexes[i].k > 0.0;
      assert board[i] == StartHex(cfg.hexes[i], cfg.initialPCI, offsets(cfg.hexes[i].id, cfg.pciJitter));
    }
  }

  lemma NeedsNotNegative(rules: Rules, hexes: seq<HexState>, dt: real)
    requires NonNegative(rules.anchors) && SoundBoard(hexes)
    ensures Sum(NeedsOver(rules, hexes, dt)) >= 0.0
  {
    hide Faded;
    forall i | 0 <= i < |hexes|
      ensures Need(rules, hexes[i], dt) >= 0.0
    {
      var h := hexes[i];
      var after := Faded(rules.exp, h, dt);
      if !h.closed && h.pci - after > 0.0 {
        var price := h.roadArea * CostAt(rules.anchors, after);
        MulNonNegative(h.roadArea, CostAt(rules.anchors, after), price);
        MulNonNegative(price, (h.pci - after) / 100.0, price * ((h.pci - after) / 100.0));
      }
    }
    SumOfNonNegatives(NeedsOver(rules, hexes, dt), |hexes|);
  }

  lemma DecayKeepsSound(exp: ExpFn, h: HexState, dt: real)
    requires SoundHex(h) && dt > 0.0
    ensures SoundHex(DecayHex(exp, h, dt))
  {
    hide Faded;
    FadesFurther(exp, h, dt);
  }

  lemma TickKeepsSound(rules: Rules, st: State, dt: real)
    requires SoundRules(rules) && Sound(st) && st.status == Running && dt > 0.0
    ensures Sound(Advanced(rules, st, dt))
  {
    hide DecayHex, Need, NeedsOver, SoundHex;
    NeedsNotNegative(rules, st.hexes, dt);
    MulNonNegative(st.budgetRate, dt, Part(st.budgetRate, dt));
    forall i | 0 <= i < |st.hexes|
      ensures SoundHex(DecayHex(rules.exp, st.hexes[i], dt))
    {
      DecayKeepsSound(rules.exp, st.hexes[i], dt);
    }
  }

  lemma TreatmentKeepsSound(rules: Rules, st: State, id: string, tier: string)
    requires SoundRules(rules) && Sound(st)
    ensures Sound(TreatedOne(rules, st, id, tier))
    ensures var after := TreatedOne(rules, st, id, tier);
            after.treasury + after.spent == st.treasury + st.spent && after.simYears == st.simYears
  {
    hide Lift, ResolveTier;
    if CanTreat(rules, st, id, tier) {
      var i := Find(st.hexes, id);
      var ti := ResolveTier(rules.tiers, tier, st.hexes[i].pci);
      MulNonNegative(rules.tiers[ti].costPerSqM, st.hexes[i].roadArea, Price(rules.tiers, ti, st.hexes[i]));
      LiftRaises(st.hexes[i], rules.tiers, ti);
    }
  }

  /** A treatment never worsens a hex, and the dearest one restores it in full. */
  lemma LiftRaises(h: HexState, tiers: seq<CostTier>, ti: nat)
    requires SoundHex(h) && ti < |tiers|
    ensures SoundHex(Lifted(h, Lift(tiers, ti))) && Lifted(h, Lift(tiers, ti)).pci >= h.pci
    ensures RankUpTo(tiers, ti, |tiers|) == |tiers| - 1 ==> Lifted(h, Lift(tiers, ti)).pci == 100.0
  {
    hide RankUpTo, Lifted;
    RankBelow(tiers, ti, |tiers|);
    DivMonotone(0.0, (RankUpTo(tiers, ti, |tiers|) + 1) as real, |tiers| as real);
    Raises(h, Lift(tiers, ti));
  }

  lemma Raises(h: HexState, lift: real)
    requires SoundHex(h) && lift >= 0.0
    ensures SoundHex(Lifted(h, lift)) && Lifted(h, lift).pci >= h.pci
    ensures lift == 1.0 ==> Lifted(h, lift).pci == 100.0
  {
    MulNonNegative(100.0 - h.pci, lift, (100.0 - h.pci) * lift);
  }

  lemma {:induction false} ManyKeepSound(rules: Rules, st: State, ids: seq<string>, tier: string, n: nat)
    requires SoundRules(rules) && Sound(st) && n <= |ids|
    ensures var many := TreatedMany(rules, st, ids, tier, n);
            Sound(many) && many.treasury + many.spent == st.treasury + st.spent && many.simYears == st.simYears
  {
    hide TreatedOne;
    if n > 0 {
      ManyKeepSound(rules, st, ids, tier, n - 1);
      TreatmentKeepsSound(rules, TreatedMany(rules, st, ids, tier, n - 1), ids[n - 1], tier);
    }
  }

  /** The money an action brings in. */
  function Income(st: State, a: Action): real {
    if a.Tick? && a.dt > 0.0 && st.status == Running then Part(st.budgetRate, a.dt) else 0.0
  }

  /** Every action keeps a sound game sound, accounts for every dollar, and leaves a decided game's
      board, books and verdict alone. */
  lemma ActionKeepsSound(rules: Rules, st: State, a: Action)
    requires SoundRules(rules) && Sound(st)
    ensures var after := Do(rules, st, a);
            && Sound(after) && |after.hexes| == |st.hexes|
            && after.treasury + after.spent == st.treasury + st.spent + Income(st, a)
            && (st.status != Running ==> after == st.(budgetRate := after.budgetRate))
  {
    hide TreatedOne, Part, Loses, NeedsOver, CanTreat, SoundRules, SoundBoard;
    match a
    case Tick(dt) =>
      if dt > 0.0 && st.status == Running {
        TickKeepsSound(rules, st, dt);
      }
    case Treat(id, tier) =>
      TreatmentKeepsSound(rules, st, id, tier);
      CountsTreatments(rules, st, id, tier);
      DecidedRefuses(rules, st, id, tier);
      SameHexes(rules, st, [id], tier, 1);
      assert TreatedMany(rules, st, [id], tier, 1) ==
             TreatedOne(rules, TreatedMany(rules, st, [id], tier, 0), id, tier);
    case Batch(ids, tier) =>
      ManyKeepSound(rules, st, ids, tier, |ids|);
      SameHexes(rules, st, ids, tier, |ids|);
      ManyRefused(rules, st, ids, tier, |ids|);
    case SetBudget(rate) =>
  }

  lemma DecidedRefuses(rules: Rules, st: State, id: string, tier: string)
    ensures st.status != Running ==> !CanTreat(rules, st, id, tier) && TreatedOne(rules, st, id, tier) == st
  {
  }

  lemma {:induction false} ManyRefused(rules: Rules, st: State, ids: seq<string>, tier: string, n: nat)
    requires n <= |ids|
    ensures st.status != Running ==> TreatedMany(rules, st, ids, tier, n) == st
  {
    hide TreatedOne;
    if n > 0 {
      ManyRefused(rules, st, ids, tier, n - 1);
      DecidedRefuses(rules, st, ids[n - 1], tier);
    }
  }

  function Played(rules: Rules, st: State, actions: seq<Action>, n: nat): (after: State)
    requires st.hexes != [] && n <= |actions|
    ensures after.hexes != []
  {
    if n == 0 then st
    else
      var before := Played(rules, st, actions, n - 1);
      DoKeepsBoard(rules, before, actions[n - 1]);
      Do(rules, before, actions[n - 1])
  }

  lemma DoKeepsBoard(rules: Rules, st: State, a: Action)
    requires st.hexes != []
    ensures Do(rules, st, a).hexes != []
  {
    hide TreatedOne, Loses, NeedsOver, CanTreat, DecayHex;
    match a
    case Tick(dt) =>
    case Treat(id, tier) =>
      SameHexes(rules, st, [id], tier, 1);
      assert TreatedMany(rules, st, [id], tier, 1) ==
             TreatedOne(rules, TreatedMany(rules, st, [id], tier, 0), id, tier);
    case Batch(ids, tier) => SameHexes(rules, st, ids, tier, |ids|);
    case SetBudget(rate) =>
  }

  function Incomes(rules: Rules, st: State, actions: seq<Action>, n: nat): real
    requires st.hexes != [] && n <= |actions|
  {
    if n == 0 then 0.0
    else Incomes(rules, st, actions, n - 1) + Income(Played(rules, st, actions, n - 1), actions[n - 1])
  }

  /** Over any game: never in debt, and treasury plus spending is the start plus what came in. */
  lemma {:induction false} GameKeepsSound(rules: Rules, st: State, actions: seq<Action>, n: nat)
    requires SoundRules(rules) && Sound(st) && n <= |actions|
    ensures var after := Played(rules, st, actions, n);
            Sound(after) && after.treasury + after.spent == st.treasury + st.spent + Incomes(rules, st, actions, n)
  {
    hide Do, SoundRules, Sound, Income;
    StillHasHexes(st);
    if n > 0 {
      GameKeepsSound(rules, st, actions, n - 1);
      var before := Played(rules, st, actions, n - 1);
      StillHasHexes(before);
      ActionKeepsSound(rules, before, actions[n - 1]);
    }
  }

  lemma StillHasHexes(st: State)
    requires Sound(st)
    ensures st.hexes != []
  {
  }

  // -------------------------------------------------------------- cost ranks

  lemma {:induction false} RankBelow(tiers: seq<CostTier>, i: nat, n: nat)
    requires i < |tiers| && n <= |tiers|
    ensures RankUpTo(tiers, i, n) <= if i < n then n - 1 else n
  {
    if n > 0 { RankBelow(tiers, i, n - 1); }
  }

  lemma {:induction false} RankOrders(tiers: seq<CostTier>, i: nat, j: nat, n: nat)
    requires i < |tiers| && j < |tiers| && n <= |tiers| && CheaperThan(tiers, i, j)
    ensures RankUpTo(tiers, i, n) + (if i < n then 1 else 0) <= RankUpTo(tiers, j, n)
  {
    if n > 0 { RankOrders(tiers, i, j, n - 1); }
  }

  /** The ranks are a permutation of 0 .. n-1 that orders the tiers by cost, ties by position: so
      every tier has its own lift, and exactly one restores in full. */
  lemma RanksSort(tiers: seq<CostTier>, i: nat, j: nat)
    requires i < |tiers| && j < |tiers|
    ensures RankUpTo(tiers, i, |tiers|) < |tiers|
    ensures RankUpTo(tiers, i, |tiers|) < RankUpTo(tiers, j, |tiers|) <==> CheaperThan(tiers, i, j)
    ensures RankUpTo(tiers, i, |tiers|) == RankUpTo(tiers, j, |tiers|) <==> i == j
  {
    RankBelow(tiers, i, |tiers|);
    if CheaperThan(tiers, i, j) {
      RankOrders(tiers, i, j, |tiers|);
    } else if i != j {
      RankOrders(tiers, j, i, |tiers|);
    }
  }

  // ------------------------------------------------------------ out of funds

  /** The verdict's promise: while it holds, no open hex can be treated at any tier. */
  lemma OutOfFundsOpen(rules: Rules, st: State, id: string, tier: string)
    requires rules.tiers != [] && Sound(st) && OutOfFunds(rules.tiers, st) && CanTreat(rules, st, id, tier)
    ensures st.hexes[Find(st.hexes, id)].closed
  {
    hide Cheapest;
    var h := st.hexes[Find(st.hexes, id)];
    var ti := ResolveTier(rules.tiers, tier, h.pci);
    assert Cheapest(rules.tiers, |rules.tiers|) <= rules.tiers[ti].costPerSqM;
    MulMonotone(Cheapest(rules.tiers, |rules.tiers|), rules.tiers[ti].costPerSqM, h.roadArea,
                Part(h.roadArea, Cheapest(rules.tiers, |rules.tiers|)), Price(rules.tiers, ti, h));
  }

  /** Some request, a label or "auto", resolves to the tier at this condition. */
  ghost predicate Reached(tiers: seq<CostTier>, ti: nat, pci: real)
    requires ti < |tiers|
  {
    (TierIndex(tiers, tiers[ti].tierLabel, 0) == ti && tiers[ti].tierLabel != "auto") ||
      AutoTierIndex(tiers, pci, 0) == ti
  }

  /** Hex i is the one its id names, and is closed; tier ti can be asked for, and is affordable. */
  ghost predicate ClosedInReach(rules: Rules, st: State, i: nat, ti: nat) {
    && i < |st.hexes| && ti < |rules.tiers|
    && st.hexes[i].closed && Find(st.hexes, st.hexes[i].id) == i
    && Reached(rules.tiers, ti, st.hexes[i].pci) && st.treasury >= Price(rules.tiers, ti, st.hexes[i])
  }

  /** The source calls the verdict proof that no treatment is affordable anywhere. It looks only at
      open hexes, so exactly when some closed hex is in reach, it is not. */
  lemma OutOfFundsIsFinalIff(rules: Rules, st: State)
    requires rules.tiers != [] && Sound(st) && st.status == Running && OutOfFunds(rules.tiers, st)
    ensures (exists id, tier :: CanTreat(rules, st, id, tier)) <==>
            (exists i: nat, ti: nat :: ClosedInReach(rules, st, i, ti))
  {
    hide Cheapest, Find, TierIndex, AutoTierIndex, OutOfFunds, Price;
    if id, tier :| CanTreat(rules, st, id, tier) {
      OutOfFundsOpen(rules, st, id, tier);
      var i := Find(st.hexes, id);
      var ti := ResolveTier(rules.tiers, tier, st.hexes[i].pci);
      TierFound(rules.tiers, tier, 0);
      assert ClosedInReach(rules, st, i, ti);
    }
    if i: nat, ti: nat :| ClosedInReach(rules, st, i, ti) {
      if AutoTierIndex(rules.tiers, st.hexes[i].pci, 0) == ti {
        assert CanTreat(rules, st, st.hexes[i].id, "auto");
      } else {
        assert CanTreat(rules, st, st.hexes[i].id, rules.tiers[ti].tierLabel);
      }
    }
  }

  lemma {:induction false} TierFound(tiers: seq<CostTier>, name: string, from: nat)
    requires from <= |tiers|
    ensures var ti := TierIndex(tiers, name, from);
            ti != -1 ==> from <= ti < |tiers| && tiers[ti].tierLabel == name
    decreases |tiers| - from
  {
    if from < |tiers| {
      TierFound(tiers, name, from + 1);
    }
  }

  const TwoHexes := Config([HexConfig("a", 100.0, 0.1), HexConfig("b", 1.0, 0.1)], 80.0, 80.0,
                           [CostTier(0.0, 101.0, 5.0, "only")], 6.0, 10.0, 0.0, 0.0, [], false)

  /** A jitter that closes hex "b" from the start. */
  function Sinking(id: string, jitter: real): real {
    if id == "b" then -jitter else 0.0
  }

  const OpenAndGravel := [HexState("a", 100.0, 0.1, 80.0, false), HexState("b", 1.0, 0.1, 0.0, true)]

  lemma TwoHexesStart()
    ensures Accepted(TwoHexes)
    ensures Start(TwoHexes, Sinking) == State(OpenAndGravel, 6.0, 6.0, 0.0, 0.0, Running, 0.0, 0)
  {
    assert |"a"| == |"b"| == 1 && "a"[0] != "b"[0];
    assert Sinking("a", 80.0) == 0.0 && Sinking("b", 80.0) == -80.0;
    StartAt(TwoHexes, Sinking, 0);
    StartAt(TwoHexes, Sinking, 1);
    assert StartHex(TwoHexes.hexes[0], 80.0, 0.0) == OpenAndGravel[0];
    assert StartHex(TwoHexes.hexes[1], 80.0, -80.0) == OpenAndGravel[1];
  }

  lemma StartAt(cfg: Config, offsets: (string, real) -> real, i: nat)
    requires i < |cfg.hexes|
    ensures |Start(cfg, offsets).hexes| == |cfg.hexes|
    ensures Start(cfg, offsets).hexes[i] ==
            StartHex(cfg.hexes[i], cfg.initialPCI, offsets(cfg.hexes[i].id, cfg.pciJitter))
  {
  }

  /** A small closed hex beside a large open one, as New sets them up: the game starts out of funds,
      and the closed hex can be treated. */
  lemma OutOfFundsIsNotFinal(rules: Rules)
    requires rules.tiers == TwoHexes.tiers
    ensures var st := Start(TwoHexes, Sinking);
            Accepted(TwoHexes) && OutOfFunds(rules.tiers, st) && CanTreat(rules, st, "b", "only")
  {
    hide Start, Accepted;
    TwoHexesStart();
    assert "a"[0] != "b"[0] && "only"[0] != "auto"[0];
    FindAt(OpenAndGravel, 1);
    TierAt(TwoHexes.tiers, 0, 0);
    assert !OpenAndGravel[0].closed;
    assert Cheapest(TwoHexes.tiers, 1) == 5.0;
    assert ResolveTier(TwoHexes.tiers, "only", 0.0) == 0;
  }

  lemma {:induction false} FindAt(hexes: seq<HexState>, i: nat)
    requires i < |hexes| && forall j :: 0 <= j < i ==> hexes[j].id != hexes[i].id
    ensures Find(hexes, hexes[i].id) == i
  {
    if i > 0 {
      FindAt(hexes[1..], i - 1);
    }
  }

  lemma {:induction false} TierAt(tiers: seq<CostTier>, i: nat, from: nat)
    requires from <= i < |tiers| && forall j :: 0 <= j < i ==> tiers[j].tierLabel != tiers[i].tierLabel
    ensures TierIndex(tiers, tiers[i].tierLabel, from) == i
    decreases i - from
  {
    if from < i {
      TierAt(tiers, i, from + 1);
    }
  }

  // ----------------------------------------------------------------- strokes

  /** Treat for each of the first n ids in turn, with the status recomputed every time. */
  function TreatedInTurn(rules: Rules, st: State, ids: seq<string>, tier: string, n: nat): (after: State)
    requires st.hexes != [] && n <= |ids|
    ensures after.hexes != []
  {
    if n == 0 then st
    else
      var before := TreatedInTurn(rules, st, ids, tier, n - 1);
      DoKeepsBoard(rules, before, Treat(ids[n - 1], tier));
      Treated(rules, before, ids[n - 1], tier)
  }

  lemma {:induction false} TurnByTurn(rules: Rules, st: State, ids: seq<string>, tier: string, n: nat)
    requires st.hexes != [] && n <= |ids| && st.status == Running
    requires forall m :: 0 <= m < n ==> TreatedInTurn(rules, st, ids, tier, m).status == Running
    ensures var turn, many := TreatedInTurn(rules, st, ids, tier, n), TreatedMany(rules, st, ids, tier, n);
            && |many.hexes| == |st.hexes| && many.status == Running
            && (turn.status == Running ==> turn == many)
            && turn == if many.treatments > st.treatments then Recomputed(rules, many) else st
  {
    hide TreatedOne, CanTreat, Loses;
    SameHexes(rules, st, ids, tier, n);
    if n > 0 {
      TurnByTurn(rules, st, ids, tier, n - 1);
      var before := TreatedMany(rules, st, ids, tier, n - 1);
      CountsTreatments(rules, before, ids[n - 1], tier);
      SameHexes(rules, st, ids, tier, n - 1);
    }
  }

  /** A brush stroke equals treating the hexes one by one as long as no treatment but the last
      decides the game on the way: a stroke recomputes the status only once. */
  lemma StrokeIsSequence(rules: Rules, st: State, ids: seq<string>, tier: string)
    requires st.hexes != [] && st.status == Running
    requires forall m :: 0 <= m < |ids| ==> TreatedInTurn(rules, st, ids, tier, m).status == Running
    ensures TreatedBatch(rules, st, ids, tier) == TreatedInTurn(rules, st, ids, tier, |ids|)
  {
    hide TreatedOne, Loses, TreatedMany, TreatedInTurn;
    TurnByTurn(rules, st, ids, tier, |ids|);
  }
}
