/** What decides a game of internal/game/game.go, over whole games, and what a tick and a treatment do to
    it: in areas, conditions, counts and dollars. */
module GameOutcome {
  import opened RealMath
  import opened CostCurve
  import opened GameTick
  import opened GameLaws

  // -------------------------------------------------------- the three tests

  /** The sum of a quantity over the open hexes. */
  function OpenSum(hexes: seq<HexState>, quantity: HexState -> real): real {
    if hexes == [] then 0.0
    else
      var last := hexes[|hexes| - 1];
      OpenSum(hexes[..|hexes| - 1], quantity) + if last.closed then 0.0 else quantity(last)
  }

  function ClosedHexes(hexes: seq<HexState>): set<int> {
    set i | 0 <= i < |hexes| && hexes[i].closed
  }

  /** The open roads are in a condition of at least 30 on average by area, at most half the hexes are closed,
      and the backlog is within the ceiling. */
  ghost predicate Survives(rules: Rules, st: State) {
    var area := OpenSum(st.hexes, (h: HexState) => h.roadArea);
    && area > 0.0 && OpenSum(st.hexes, (h: HexState) => h.pci * h.roadArea) >= 30.0 * area
    && 2 * |ClosedHexes(st.hexes)| <= |st.hexes|
    && st.backlog <= rules.loseBacklogCeiling
  }

  lemma {:induction false} OpenSumIs(hexes: seq<HexState>, quantity: HexState -> real, column: seq<real>, n: nat)
    requires n <= |hexes| == |column|
    requires forall i :: 0 <= i < n ==> column[i] == if hexes[i].closed then 0.0 else quantity(hexes[i])
    ensures SumUpTo(column, n) == OpenSum(hexes[..n], quantity)
  {
    if n > 0 {
      OpenSumIs(hexes, quantity, column, n - 1);
      assert hexes[..n][..n - 1] == hexes[..n - 1];
    }
  }

  lemma {:induction false} ClosedCount(hexes: seq<HexState>, n: nat)
    requires n <= |hexes|
    ensures Closed(hexes, n) == |ClosedHexes(hexes[..n])|
  {
    if n > 0 {
      ClosedCount(hexes, n - 1);
      var before, now := ClosedHexes(hexes[..n - 1]), ClosedHexes(hexes[..n]);
      assert now == before + if hexes[n - 1].closed then {n - 1} else {};
    } else {
      assert ClosedHexes(hexes[..0]) == {};
    }
  }

  lemma QuotientBelow(num: real, den: real, floor: real)
    requires den > 0.0
    ensures num / den < floor <==> num < floor * den
  {
    var q := num / den;
    assert q * den == num;
    if q < floor {
      MulMonotone(q, floor, den, q * den, floor * den);
    } else {
      MulMonotone(floor, q, den, floor * den, q * den);
    }
  }

  lemma ConditionTest(hexes: seq<HexState>)
    ensures var area := OpenSum(hexes, (h: HexState) => h.roadArea);
            NetworkPCI(hexes) < 30.0 <==>
            area <= 0.0 || OpenSum(hexes, (h: HexState) => h.pci * h.roadArea) < 30.0 * area
  {
    var n := |hexes|;
    var area, weight := (h: HexState) => h.roadArea, (h: HexState) => h.pci * h.roadArea;
    assert hexes[..n] == hexes;
    OpenSumIs(hexes, area, OpenAreas(hexes), n);
    OpenSumIs(hexes, weight, Conditions(hexes), n);
    hide OpenSum, OpenAreas, Conditions;
    if OpenSum(hexes, area) > 0.0 {
      QuotientBelow(OpenSum(hexes, weight), OpenSum(hexes, area), 30.0);
    }
  }

  lemma CountTest(hexes: seq<HexState>)
    requires hexes != []
    ensures Closed(hexes, |hexes|) as real / |hexes| as real > 0.5 <==> 2 * |ClosedHexes(hexes)| > |hexes|
  {
    assert hexes[..|hexes|] == hexes;
    ClosedCount(hexes, |hexes|);
    hide Closed, ClosedHexes;
    QuotientBelow(|hexes| as real - Closed(hexes, |hexes|) as real, |hexes| as real, 0.5);
    OneLess(Closed(hexes, |hexes|) as real, |hexes| as real);
  }

  lemma OneLess(a: real, n: real)
    requires n > 0.0
    ensures (n - a) / n == 1.0 - a / n
  {
    assert (n - a) / n == n / n - a / n;
  }

  lemma LosesIff(rules: Rules, st: State)
    requires st.hexes != []
    ensures Loses(rules, st) <==> !Survives(rules, st)
  {
    hide NetworkPCI, Closed, OpenSum, ClosedHexes;
    ConditionTest(st.hexes);
    CountTest(st.hexes);
  }

  // ------------------------------------------------------ how a game comes out

  /** Time has passed in one of the first n actions. */
  ghost predicate Elapsed(actions: seq<Action>, n: nat)
    requires n <= |actions|
  {
    exists i :: 0 <= i < n && actions[i].Tick? && actions[i].dt > 0.0
  }

  /** Where the verdict stands: won games are at their horizon and survive, lost games do not survive, and a
      running one is short of its horizon, unless endless, and survives once time has passed. */
  ghost predicate Fair(rules: Rules, st: State, elapsed: bool) {
    match st.status
    case Won => !rules.endless && st.simYears >= rules.horizon && Survives(rules, st)
    case Lost => !Survives(rules, st)
    case Running => (rules.endless || st.simYears < rules.horizon) && (elapsed ==> Survives(rules, st))
  }

  lemma RecomputedIsFair(rules: Rules, st: State)
    requires st.hexes != [] && st.status == Running
    ensures Fair(rules, Recomputed(rules, st), true)
  {
    hide Loses, Survives;
    LosesIff(rules, st);
    SameVerdict(rules, st, Recomputed(rules, st));
  }

  lemma SameVerdict(rules: Rules, a: State, b: State)
    requires a.hexes == b.hexes && a.backlog == b.backlog
    ensures Survives(rules, a) == Survives(rules, b)
  {
  }

  /** An action on a decided game changes nothing but the rate. */
  lemma DecidedStays(rules: Rules, st: State, a: Action)
    requires st.hexes != [] && st.status != Running
    ensures Do(rules, st, a) == st.(budgetRate := Do(rules, st, a).budgetRate)
  {
    match a
    case Tick(dt) =>
    case Treat(id, tier) => DecidedRefuses(rules, st, id, tier);
    case Batch(ids, tier) => ManyRefused(rules, st, ids, tier, |ids|);
    case SetBudget(rate) =>
  }

  lemma StaysFair(rules: Rules, st: State, a: Action, elapsed: bool)
    requires st.hexes != [] && Fair(rules, st, elapsed)
    ensures Fair(rules, Do(rules, st, a), elapsed || (a.Tick? && a.dt > 0.0))
  {
    hide Survives, Recomputed, Advanced, TreatedOne, CanTreat;
    if st.status != Running {
      DecidedStays(rules, st, a);
      SameVerdict(rules, st, Do(rules, st, a));
    } else {
      match a
      case Tick(dt) =>
        StillRunning(rules, st, dt);
        if dt > 0.0 {
          RecomputedIsFair(rules, Advanced(rules, st, dt));
        }
      case Treat(id, tier) =>
        OneKeepsStatus(rules, st, id, tier);
        if CanTreat(rules, st, id, tier) {
          RecomputedIsFair(rules, TreatedOne(rules, st, id, tier));
        }
      case Batch(ids, tier) =>
        SameHexes(rules, st, ids, tier, |ids|);
        if TreatedMany(rules, st, ids, tier, |ids|).treatments > st.treatments {
          RecomputedIsFair(rules, TreatedMany(rules, st, ids, tier, |ids|));
        }
      case SetBudget(rate) =>
        SameVerdict(rules, st, Do(rules, st, a));
    }
  }

  lemma StillRunning(rules: Rules, st: State, dt: real)
    requires st.hexes != []
    ensures Advanced(rules, st, dt).status == st.status && Advanced(rules, st, dt).hexes != []
  {
  }

  lemma OneKeepsStatus(rules: Rules, st: State, id: string, tier: string)
    requires st.hexes != []
    ensures TreatedOne(rules, st, id, tier).status == st.status && TreatedOne(rules, st, id, tier).hexes != []
  {
  }

  lemma {:induction false} GameIsFair(rules: Rules, st: State, actions: seq<Action>, n: nat)
    requires st.hexes != [] && st.status == Running && st.simYears < rules.horizon && n <= |actions|
    ensures Fair(rules, Played(rules, st, actions, n), Elapsed(actions, n))
  {
    hide Fair, Do;
    if n == 0 {
      StartsFair(rules, st);
    } else {
      GameIsFair(rules, st, actions, n - 1);
      StaysFair(rules, Played(rules, st, actions, n - 1), actions[n - 1], Elapsed(actions, n - 1));
      assert Elapsed(actions, n) <==> Elapsed(actions, n - 1) || (actions[n - 1].Tick? && actions[n - 1].dt > 0.0);
    }
  }

  lemma StartsFair(rules: Rules, st: State)
    requires st.status == Running && st.simYears < rules.horizon
    ensures Fair(rules, st, false)
  {
  }

  /** Over any game from a start before its horizon: once time has passed, it is lost exactly when a test
      fails, and won exactly when none does at or after the horizon of a game that is not endless. No game is
      decided otherwise, and none that is not endless runs past its horizon. */
  lemma VerdictIff(rules: Rules, st: State, actions: seq<Action>, n: nat)
    requires st.hexes != [] && st.status == Running && st.simYears < rules.horizon && n <= |actions|
    ensures var after := Played(rules, st, actions, n);
            && (after.status == Lost ==> !Survives(rules, after))
            && (after.status == Won ==> Survives(rules, after) && !rules.endless && after.simYears >= rules.horizon)
            && (after.status == Running ==> rules.endless || after.simYears < rules.horizon)
            && (Elapsed(actions, n) ==>
                  && (after.status == Lost <==> !Survives(rules, after))
                  && (after.status == Won <==>
                      Survives(rules, after) && !rules.endless && after.simYears >= rules.horizon))
  {
    hide Survives, Played, Elapsed;
    GameIsFair(rules, st, actions, n);
  }

  /** So it is for every game that New makes, whatever is played. */
  lemma NewGameVerdict(cfg: Config, offsets: (string, real) -> real, rules: Rules, actions: seq<Action>, n: nat)
    requires Accepted(cfg) && rules.horizon == cfg.horizon && n <= |actions| && Elapsed(actions, n)
    ensures var st := Start(cfg, offsets);
            st.hexes != [] &&
            var after := Played(rules, st, actions, n);
            && (after.status == Lost <==> !Survives(rules, after))
            && (after.status == Won <==>
                Survives(rules, after) && !rules.endless && after.simYears >= rules.horizon)
  {
    hide Survives, Played, Elapsed;
    VerdictIff(rules, Start(cfg, offsets), actions, n);
  }

  /** The board of a new game: each hex at the initial condition plus its jitter, kept within 0 and 100, and
      closed at 1 or less; the budget, if it is positive, is both the treasury and the yearly rate. */
  lemma NewGameInFull(cfg: Config, offsets: (string, real) -> real)
    ensures var st, budget := Start(cfg, offsets), Max(0.0, cfg.startingBudget);
            && st == State(st.hexes, budget, budget, 0.0, 0.0, Running, 0.0, 0) && |st.hexes| == |cfg.hexes|
            && forall i :: 0 <= i < |cfg.hexes| ==>
                 var h, x := cfg.hexes[i], cfg.initialPCI + offsets(cfg.hexes[i].id, cfg.pciJitter);
                 var pci := if x < 0.0 then 0.0 else if x > 100.0 then 100.0 else x;
                 st.hexes[i] == HexState(h.id, h.roadArea, h.k, pci, pci <= 1.0)
  {
    forall i | 0 <= i < |cfg.hexes|
      ensures Start(cfg, offsets).hexes[i] ==
              StartHex(cfg.hexes[i], cfg.initialPCI, offsets(cfg.hexes[i].id, cfg.pciJitter))
    {
      StartAt(cfg, offsets, i);
    }
  }

  /** The price that the backlog ceiling takes for the whole network: the highest of any tier. */
  lemma {:induction false} DearestIsHighest(tiers: seq<CostTier>, n: nat)
    requires n <= |tiers|
    ensures var c := Dearest(tiers, n);
            && c >= 0.0 && (forall i :: 0 <= i < n ==> tiers[i].costPerSqM <= c)
            && (c > 0.0 ==> exists i :: 0 <= i < n && c == tiers[i].costPerSqM)
  {
    if n > 0 {
      DearestIsHighest(tiers, n - 1);
    }
  }

  // ------------------------------------------------------------- one tick

  /** A condition after dt at decay rate k. */
  function FadedTo(exp: ExpFn, h: HexState, dt: real): real {
    Part(h.pci, exp(-Part(h.k, dt)))
  }

  /** What an open hex adds to the backlog: its area at the price of its new condition, for the hundredths of
      full condition that it lost. */
  function Accrual(rules: Rules, dt: real): HexState -> real {
    (h: HexState) =>
      var after := FadedTo(rules.exp, h, dt);
      if h.pci > after then h.roadArea * CostAt(rules.anchors, after) * ((h.pci - after) / 100.0) else 0.0
  }

  /** A tick: time and the budget come in, every open hex fades and closes for good at a condition of 1 or
      less, and the backlog grows by what the open hexes lost. */
  lemma TickInFull(rules: Rules, st: State, dt: real)
    requires st.hexes != [] && st.status == Running && dt > 0.0
    ensures var after := Do(rules, st, Tick(dt));
            && after.simYears == st.simYears + dt && after.treasury == st.treasury + Part(st.budgetRate, dt)
            && after.budgetRate == st.budgetRate && after.spent == st.spent && after.treatments == st.treatments
            && after.backlog == st.backlog + OpenSum(st.hexes, Accrual(rules, dt))
            && |after.hexes| == |st.hexes|
            && forall i :: 0 <= i < |st.hexes| ==>
                 var h, pci := st.hexes[i], FadedTo(rules.exp, st.hexes[i], dt);
                 after.hexes[i] == (if h.closed then h
                                    else if pci <= 1.0 then h.(pci := 0.0, closed := true) else h.(pci := pci))
  {
    hide Loses, CostAt;
    var needs := NeedsOver(rules, st.hexes, dt);
    assert st.hexes[..|st.hexes|] == st.hexes;
    forall i | 0 <= i < |st.hexes|
      ensures needs[i] == if st.hexes[i].closed then 0.0 else Accrual(rules, dt)(st.hexes[i])
    {
      FadedIs(rules.exp, st.hexes[i], dt);
    }
    OpenSumIs(st.hexes, Accrual(rules, dt), needs, |st.hexes|);
    forall i | 0 <= i < |st.hexes|
      ensures Faded(rules.exp, st.hexes[i], dt) == FadedTo(rules.exp, st.hexes[i], dt)
    {
      FadedIs(rules.exp, st.hexes[i], dt);
    }
    hide Faded, FadedTo, OpenSum, Accrual, NeedsOver;
  }

  lemma FadedIs(exp: ExpFn, h: HexState, dt: real)
    ensures Faded(exp, h, dt) == FadedTo(exp, h, dt)
  {
  }

  // --------------------------------------------------------- one treatment

  /** Hex i is the one that the id names. */
  ghost predicate NamedBy(hexes: seq<HexState>, id: string, i: nat) {
    i < |hexes| && hexes[i].id == id && forall j :: 0 <= j < i ==> hexes[j].id != id
  }

  /** The request asks for the tier: by its label, or as "auto" by the condition that its band contains. */
  predicate AsksFor(t: CostTier, request: string, pci: real) {
    if request == "auto" then t.minPCI <= pci < t.maxPCI else t.tierLabel == request
  }

  /** Tier ti is the first that the request asks for. */
  ghost predicate Requested(tiers: seq<CostTier>, request: string, pci: real, ti: nat) {
    && ti < |tiers| && AsksFor(tiers[ti], request, pci)
    && forall k :: 0 <= k < ti ==> !AsksFor(tiers[k], request, pci)
  }

  /** The tiers that cost less, or as much and come earlier. */
  function Cheaper(tiers: seq<CostTier>, ti: nat): set<int>
    requires ti < |tiers|
  {
    set k | 0 <= k < |tiers| && (tiers[k].costPerSqM < tiers[ti].costPerSqM ||
                                 (tiers[k].costPerSqM == tiers[ti].costPerSqM && k < ti))
  }

  lemma {:induction false} RankCounts(tiers: seq<CostTier>, ti: nat, n: nat)
    requires ti < |tiers| && n <= |tiers|
    ensures RankUpTo(tiers, ti, n) == |set k | 0 <= k < n && CheaperThan(tiers, k, ti)|
  {
    var now := set k | 0 <= k < n && CheaperThan(tiers, k, ti);
    if n > 0 {
      RankCounts(tiers, ti, n - 1);
      var before := set k | 0 <= k < n - 1 && CheaperThan(tiers, k, ti);
      assert now == before + if CheaperThan(tiers, n - 1, ti) then {n - 1} else {};
    } else {
      assert now == {};
    }
  }

  lemma RankIsCheaper(tiers: seq<CostTier>, ti: nat)
    requires ti < |tiers|
    ensures RankUpTo(tiers, ti, |tiers|) == |Cheaper(tiers, ti)|
  {
    RankCounts(tiers, ti, |tiers|);
    assert Cheaper(tiers, ti) == set k | 0 <= k < |tiers| && CheaperThan(tiers, k, ti);
  }

  lemma {:induction false} FirstAuto(tiers: seq<CostTier>, pci: real, from: nat, ti: nat)
    requires from <= ti < |tiers| && tiers[ti].minPCI <= pci < tiers[ti].maxPCI
    requires forall k :: 0 <= k < ti ==> !(tiers[k].minPCI <= pci < tiers[k].maxPCI)
    ensures AutoTierIndex(tiers, pci, from) == ti
    decreases ti - from
  {
    if from < ti {
      FirstAuto(tiers, pci, from + 1, ti);
    }
  }

  lemma {:induction false} NoTier(tiers: seq<CostTier>, request: string, pci: real, from: nat)
    requires from <= |tiers| && forall k :: 0 <= k < |tiers| ==> !AsksFor(tiers[k], request, pci)
    ensures request == "auto" ==> AutoTierIndex(tiers, pci, from) == -1
    ensures request != "auto" ==> TierIndex(tiers, request, from) == -1
    decreases |tiers| - from
  {
    if from < |tiers| {
      NoTier(tiers, request, pci, from + 1);
    }
  }

  lemma RequestedResolves(tiers: seq<CostTier>, request: string, pci: real, ti: nat)
    requires Requested(tiers, request, pci, ti)
    ensures ResolveTier(tiers, request, pci) == ti
  {
    if request == "auto" {
      FirstAuto(tiers, pci, 0, ti);
    } else {
      TierAt(tiers, ti, 0);
    }
  }

  /** A condition with a share of its headroom to 100 restored. */
  function Restored(pci: real, share: real): real {
    Max(0.0, Min(100.0, pci + Part(100.0 - pci, share)))
  }

  /** A treatment of the hex that the id names at the tier first asked for: affordable, it is charged for the
      hex's area, paid down on the backlog, and lifts the hex's headroom by the tier's place in the order of
      cost, which may reopen it; else, or once the game is decided, it changes nothing. */
  lemma TreatmentInFull(rules: Rules, st: State, id: string, request: string, i: nat, ti: nat)
    requires NamedBy(st.hexes, id, i) && Requested(rules.tiers, request, st.hexes[i].pci, ti)
    ensures var after, h := Do(rules, st, Treat(id, request)), st.hexes[i];
            var price := rules.tiers[ti].costPerSqM * h.roadArea;
            var share := (|Cheaper(rules.tiers, ti)| + 1) as real / |rules.tiers| as real;
            var pci := Restored(h.pci, share);
            if st.status == Running && st.treasury >= price then
              && after.treasury == st.treasury - price && after.spent == st.spent + price
              && after.backlog == Max(0.0, st.backlog - price) && after.treatments == st.treatments + 1
              && after.hexes == st.hexes[i := h.(pci := pci, closed := h.closed && pci <= 1.0)]
              && after.simYears == st.simYears && after.budgetRate == st.budgetRate
            else after == st
  {
    hide Loses, RankUpTo, ResolveTier, Find;
    FindFirst(st.hexes, id, i);
    RequestedResolves(rules.tiers, request, st.hexes[i].pci, ti);
    RankIsCheaper(rules.tiers, ti);
    var share := (|Cheaper(rules.tiers, ti)| + 1) as real / |rules.tiers| as real;
    assert Lift(rules.tiers, ti) == share;
    LiftedIs(st.hexes[i], share);
    hide Lift, Lifted, Cheaper, Restored;
  }

  lemma LiftedIs(h: HexState, share: real)
    ensures var pci := Restored(h.pci, share);
            Lifted(h, share) == h.(pci := pci, closed := h.closed && pci <= 1.0)
  {
  }

  /** Without a hex or a tier that is meant, nothing happens. */
  lemma TreatmentRefused(rules: Rules, st: State, id: string, request: string)
    requires st.hexes != []
    requires forall i: nat :: NamedBy(st.hexes, id, i) ==>
               forall ti: nat :: !Requested(rules.tiers, request, st.hexes[i].pci, ti)
    ensures Do(rules, st, Treat(id, request)) == st
  {
    hide Loses;
    var i := Find(st.hexes, id);
    if i < |st.hexes| {
      var pci := st.hexes[i].pci;
      assert NamedBy(st.hexes, id, i);
      if ti: nat :| ti < |rules.tiers| && AsksFor(rules.tiers[ti], request, pci) {
        var first := FirstAsked(rules.tiers, request, pci, ti);
        assert false;
      }
      NoTier(rules.tiers, request, pci, 0);
    }
  }

  lemma {:induction false} FirstAsked(tiers: seq<CostTier>, request: string, pci: real, ti: nat) returns (first: nat)
    requires ti < |tiers| && AsksFor(tiers[ti], request, pci)
    ensures Requested(tiers, request, pci, first)
    decreases ti
  {
    if k :| 0 <= k < ti && AsksFor(tiers[k], request, pci) {
      first := FirstAsked(tiers, request, pci, k);
    } else {
      first := ti;
    }
  }

  // ------------------------------------------------------- the backlog's books

  lemma PricesNotNegative(rules: Rules, st: State, id: string, tier: string)
    requires SoundRules(rules) && Sound(st)
    ensures var after := TreatedOne(rules, st, id, tier);
            after.spent >= st.spent && after.backlog == Max(0.0, st.backlog - (after.spent - st.spent))
  {
    hide Lift, ResolveTier;
    if CanTreat(rules, st, id, tier) {
      var i := Find(st.hexes, id);
      var ti := ResolveTier(rules.tiers, tier, st.hexes[i].pci);
      MulNonNegative(rules.tiers[ti].costPerSqM, st.hexes[i].roadArea, Price(rules.tiers, ti, st.hexes[i]));
    }
  }

  lemma {:induction false} StrokePays(rules: Rules, st: State, ids: seq<string>, tier: string, n: nat)
    requires SoundRules(rules) && Sound(st) && n <= |ids|
    ensures var after := TreatedMany(rules, st, ids, tier, n);
            after.spent >= st.spent && after.backlog == Max(0.0, st.backlog - (after.spent - st.spent))
  {
    hide TreatedOne, SoundRules;
    if n > 0 {
      StrokePays(rules, st, ids, tier, n - 1);
      ManyKeepSound(rules, st, ids, tier, n - 1);
      PricesNotNegative(rules, TreatedMany(rules, st, ids, tier, n - 1), ids[n - 1], tier);
    } else {
      BacklogNotNegative(st);
    }
  }

  lemma BacklogNotNegative(st: State)
    requires Sound(st)
    ensures st.backlog >= 0.0
  {
  }

  /** What an action accrues: only a tick of a running game does. */
  function Accrued(rules: Rules, st: State, a: Action): real {
    if a.Tick? && a.dt > 0.0 && st.status == Running then OpenSum(st.hexes, Accrual(rules, a.dt)) else 0.0
  }

  /** Every action's effect on the backlog: what it accrues comes on, and every dollar it spends comes off,
      down to zero. */
  lemma ActionPays(rules: Rules, st: State, a: Action)
    requires SoundRules(rules) && Sound(st)
    ensures var after := Do(rules, st, a);
            && Accrued(rules, st, a) >= 0.0 && after.spent >= st.spent
            && after.backlog == Max(0.0, st.backlog + Accrued(rules, st, a) - (after.spent - st.spent))
  {
    hide TreatedOne, Loses, OpenSum, Accrual, CanTreat, SoundRules;
    BacklogNotNegative(st);
    match a
    case Tick(dt) =>
      if dt > 0.0 && st.status == Running {
        NeedsNotNegative(rules, st.hexes, dt) by { SoundPrices(rules, st); }
        TickInFull(rules, st, dt);
        AccruedIsNeed(rules, st, dt);
      }
    case Treat(id, tier) =>
      PricesNotNegative(rules, st, id, tier);
      CountsTreatments(rules, st, id, tier);
      OneKeepsStatus(rules, st, id, tier);
    case Batch(ids, tier) =>
      StrokePays(rules, st, ids, tier, |ids|);
      SameHexes(rules, st, ids, tier, |ids|);
      if TreatedMany(rules, st, ids, tier, |ids|).treatments == st.treatments {
        NoTreatmentNoSpend(rules, st, ids, tier, |ids|);
      }
    case SetBudget(rate) =>
  }

  lemma SoundPrices(rules: Rules, st: State)
    requires SoundRules(rules) && Sound(st)
    ensures NonNegative(rules.anchors) && SoundBoard(st.hexes)
  {
  }

  lemma AccruedIsNeed(rules: Rules, st: State, dt: real)
    requires st.hexes != [] && st.status == Running && dt > 0.0
    ensures OpenSum(st.hexes, Accrual(rules, dt)) == Sum(NeedsOver(rules, st.hexes, dt))
  {
    hide OpenSum, Accrual, NeedsOver, Loses;
    TickInFull(rules, st, dt);
  }

  lemma {:induction false} NoTreatmentNoSpend(rules: Rules, st: State, ids: seq<string>, tier: string, n: nat)
    requires n <= |ids| && TreatedMany(rules, st, ids, tier, n).treatments == st.treatments
    ensures TreatedMany(rules, st, ids, tier, n) == st
  {
    hide TreatedOne, CanTreat;
    if n > 0 {
      SameHexes(rules, st, ids, tier, n - 1);
      CountsTreatments(rules, TreatedMany(rules, st, ids, tier, n - 1), ids[n - 1], tier);
      NoTreatmentNoSpend(rules, st, ids, tier, n - 1);
    }
  }

  function AccruedOver(rules: Rules, st: State, actions: seq<Action>, n: nat): real
    requires st.hexes != [] && n <= |actions|
  {
    if n == 0 then 0.0
    else AccruedOver(rules, st, actions, n - 1) + Accrued(rules, Played(rules, st, actions, n - 1), actions[n - 1])
  }

  /** Over any game the backlog is at most what has accrued, and at least that less what has been spent. */
  lemma {:induction false} BacklogBooks(rules: Rules, st: State, actions: seq<Action>, n: nat)
    requires SoundRules(rules) && Sound(st) && n <= |actions|
    ensures var after, owed := Played(rules, st, actions, n), st.backlog + AccruedOver(rules, st, actions, n);
            && st.spent <= after.spent
            && owed - (after.spent - st.spent) <= after.backlog <= owed
  {
    hide Do, SoundRules, Sound, Accrued;
    StillHasHexes(st);
    if n > 0 {
      BacklogBooks(rules, st, actions, n - 1);
      GameKeepsSound(rules, st, actions, n - 1);
      var before := Played(rules, st, actions, n - 1);
      StillHasHexes(before);
      ActionPays(rules, before, actions[n - 1]);
      BacklogNotNegative(before);
    }
  }
}
