/** The real-time game, internal/game/game.go: continuous decay with an absorbing closure threshold,
    a path-dependent backlog, treatments by cost rank, and a status that is terminal once decided. */
module GameTick {
  import opened RealMath
  import opened CostCurve
  import Scenario
  import opened GameHeadline
  import ConditionSpread

  type ExpFn = Scenario.ExpFn

  type BetaFn = ConditionSpread.BetaFn

  const ClosureEpsilon := 1.0
  const LosePCIFloor := 30.0
  const LoseClosedFraction := 0.5

  datatype HexState = HexState(id: string, roadArea: real, k: real, pci: real, closed: bool)

  datatype Status = Running | Won | Lost

  /** Everything a tick or a treatment changes. */
  datatype State = State(hexes: seq<HexState>, treasury: real, budgetRate: real, backlog: real, simYears: real,
                         status: Status, spent: real, treatments: nat)

  /** What a game fixes at New. */
  datatype Rules = Rules(tiers: seq<CostTier>, anchors: seq<Anchor>, exp: ExpFn, horizon: real, endless: bool,
                         loseBacklogCeiling: real)

  // -------------------------------------------------------------------- tick

  function Faded(exp: ExpFn, h: HexState, dt: real): real {
    Part(h.pci, exp(-Part(h.k, dt)))
  }

  /** One hex after dt: it closes for good, at condition 0, when it reaches the threshold. */
  function DecayHex(exp: ExpFn, h: HexState, dt: real): HexState {
    if h.closed then h
    else
      var after := Faded(exp, h, dt);
      if after <= ClosureEpsilon then h.(pci := 0.0, closed := true) else h.(pci := after)
  }

  /** Full treatment cost at the later condition, for the share of full condition lost. */
  function NeedFor(anchors: seq<Anchor>, area: real, after: real, delta: real): real {
    area * CostAt(anchors, after) * (delta / 100.0)
  }

  /** The need one hex adds to the backlog over dt. */
  function Need(rules: Rules, h: HexState, dt: real): real {
    if h.closed then 0.0
    else
      var after := Faded(rules.exp, h, dt);
      if h.pci - after > 0.0 then NeedFor(rules.anchors, h.roadArea, after, h.pci - after) else 0.0
  }

  function Decayed(exp: ExpFn, hexes: seq<HexState>, dt: real): seq<HexState> {
    seq(|hexes|, i requires 0 <= i < |hexes| => DecayHex(exp, hexes[i], dt))
  }

  function NeedsOver(rules: Rules, hexes: seq<HexState>, dt: real): seq<real> {
    seq(|hexes|, i requires 0 <= i < |hexes| => Need(rules, hexes[i], dt))
  }

  function Closed(hexes: seq<HexState>, n: nat): nat
    requires n <= |hexes|
  {
    if n == 0 then 0 else Closed(hexes, n - 1) + if hexes[n - 1].closed then 1 else 0
  }

  function OpenArea(h: HexState): real {
    if h.closed then 0.0 else h.roadArea
  }

  function OpenAreas(hexes: seq<HexState>): seq<real> {
    seq(|hexes|, i requires 0 <= i < |hexes| => OpenArea(hexes[i]))
  }

  function Conditions(hexes: seq<HexState>): seq<real> {
    seq(|hexes|, i requires 0 <= i < |hexes| => if hexes[i].closed then 0.0 else hexes[i].pci * hexes[i].roadArea)
  }

  /** Area-weighted PCI over the open hexes; 0 when no open area remains. */
  function NetworkPCI(hexes: seq<HexState>): real {
    var den := Sum(OpenAreas(hexes));
    if den <= 0.0 then 0.0 else Sum(Conditions(hexes)) / den
  }

  predicate Loses(rules: Rules, st: State)
    requires st.hexes != []
  {
    || NetworkPCI(st.hexes) < LosePCIFloor
    || Closed(st.hexes, |st.hexes|) as real / |st.hexes| as real > LoseClosedFraction
    || st.backlog > rules.loseBacklogCeiling
  }

  /** recomputeStatus: won and lost are terminal. */
  function Recomputed(rules: Rules, st: State): State
    requires st.hexes != []
  {
    if st.status != Running then st
    else if Loses(rules, st) then st.(status := Lost)
    else if !rules.endless && st.simYears >= rules.horizon then st.(status := Won)
    else st
  }

  /** The state after dt, before the status is recomputed. */
  function Advanced(rules: Rules, st: State, dt: real): State {
    st.(simYears := st.simYears + dt, treasury := st.treasury + Part(st.budgetRate, dt),
        hexes := Decayed(rules.exp, st.hexes, dt),
        backlog := st.backlog + Sum(NeedsOver(rules, st.hexes, dt)))
  }

  function Ticked(rules: Rules, st: State, dt: real): State
    requires st.hexes != []
  {
    if dt <= 0.0 || st.status != Running then st else Recomputed(rules, Advanced(rules, st, dt))
  }

  // --------------------------------------------------------------- treatment

  /** First tier with the label, or -1. */
  function TierIndex(tiers: seq<CostTier>, name: string, from: nat): int
    requires from <= |tiers|
    decreases |tiers| - from
  {
    if from == |tiers| then -1 else if tiers[from].tierLabel == name then from else TierIndex(tiers, name, from + 1)
  }

  /** First tier whose band contains pci, or -1. */
  function AutoTierIndex(tiers: seq<CostTier>, pci: real, from: nat): int
    requires from <= |tiers|
    decreases |tiers| - from
  {
    if from == |tiers| then -1
    else if tiers[from].minPCI <= pci < tiers[from].maxPCI then from
    else AutoTierIndex(tiers, pci, from + 1)
  }

  function ResolveTier(tiers: seq<CostTier>, name: string, pci: real): (i: int)
    ensures -1 <= i < |tiers|
  {
    TierIndexInRange(tiers, name, 0);
    AutoTierIndexInRange(tiers, pci, 0);
    if name == "auto" then AutoTierIndex(tiers, pci, 0) else TierIndex(tiers, name, 0)
  }

  lemma {:induction false} TierIndexInRange(tiers: seq<CostTier>, name: string, from: nat)
    requires from <= |tiers|
    ensures -1 <= TierIndex(tiers, name, from) < |tiers|
    decreases |tiers| - from
  {
    if from < |tiers| { TierIndexInRange(tiers, name, from + 1); }
  }

  lemma {:induction false} AutoTierIndexInRange(tiers: seq<CostTier>, pci: real, from: nat)
    requires from <= |tiers|
    ensures -1 <= AutoTierIndex(tiers, pci, from) < |tiers|
    decreases |tiers| - from
  {
    if from < |tiers| { AutoTierIndexInRange(tiers, pci, from + 1); }
  }

  /** Tier j comes before tier i in a stable sort by cost. */
  predicate CheaperThan(tiers: seq<CostTier>, j: int, i: int)
    requires 0 <= i < |tiers| && 0 <= j < |tiers|
  {
    tiers[j].costPerSqM < tiers[i].costPerSqM || (tiers[j].costPerSqM == tiers[i].costPerSqM && j < i)
  }

  /** How many of the first n tiers come before tier i. */
  function RankUpTo(tiers: seq<CostTier>, i: nat, n: nat): nat
    requires i < |tiers| && n <= |tiers|
  {
    if n == 0 then 0 else RankUpTo(tiers, i, n - 1) + if CheaperThan(tiers, n - 1, i) then 1 else 0
  }

  /** tierCostRank's loop. */
  method TierCostRank(tiers: seq<CostTier>, i: nat) returns (rank: nat)
    requires i < |tiers|
    ensures rank == RankUpTo(tiers, i, |tiers|)
  {
    rank := 0;
    for j := 0 to |tiers|
      invariant rank == RankUpTo(tiers, i, j)
    {
      if tiers[j].costPerSqM < tiers[i].costPerSqM || (tiers[j].costPerSqM == tiers[i].costPerSqM && j < i) {
        rank := rank + 1;
      }
    }
  }

  function ClampPCI(pci: real): real {
    Max(0.0, Min(100.0, pci))
  }

  /** The share of the remaining headroom that a tier restores. */
  function Lift(tiers: seq<CostTier>, i: nat): real
    requires i < |tiers|
  {
    (RankUpTo(tiers, i, |tiers|) + 1) as real / |tiers| as real
  }

  function Lifted(h: HexState, lift: real): HexState {
    var pci := ClampPCI(h.pci + (100.0 - h.pci) * lift);
    h.(pci := pci, closed := h.closed && pci <= ClosureEpsilon)
  }

  /** The first hex with the id, or |hexes|. */
  function Find(hexes: seq<HexState>, id: string): (i: nat)
    ensures i <= |hexes| && (i < |hexes| ==> hexes[i].id == id)
    ensures forall j :: 0 <= j < i ==> hexes[j].id != id
  {
    if hexes == [] || hexes[0].id == id then 0 else 1 + Find(hexes[1..], id)
  }

  function Price(tiers: seq<CostTier>, ti: nat, h: HexState): real
    requires ti < |tiers|
  {
    tiers[ti].costPerSqM * h.roadArea
  }

  /** Whether a treatment goes through. */
  predicate CanTreat(rules: Rules, st: State, id: string, tier: string) {
    var i := Find(st.hexes, id);
    && st.status == Running && i < |st.hexes|
    && var ti := ResolveTier(rules.tiers, tier, st.hexes[i].pci);
       ti >= 0 && st.treasury >= Price(rules.tiers, ti, st.hexes[i])
  }

  /** treatOne, without the status. */
  function TreatedOne(rules: Rules, st: State, id: string, tier: string): State {
    if !CanTreat(rules, st, id, tier) then st
    else
      var i := Find(st.hexes, id);
      var h := st.hexes[i];
      var ti := ResolveTier(rules.tiers, tier, h.pci);
      var cost := Price(rules.tiers, ti, h);
      st.(treasury := st.treasury - cost, spent := st.spent + cost, treatments := st.treatments + 1,
          backlog := Max(0.0, st.backlog - cost), hexes := st.hexes[i := Lifted(h, Lift(rules.tiers, ti))])
  }

  function Treated(rules: Rules, st: State, id: string, tier: string): State
    requires st.hexes != []
  {
    if CanTreat(rules, st, id, tier) then Recomputed(rules, TreatedOne(rules, st, id, tier)) else st
  }

  /** treatOne for each of the first n ids. */
  function TreatedMany(rules: Rules, st: State, ids: seq<string>, tier: string, n: nat): State
    requires n <= |ids|
  {
    if n == 0 then st else TreatedOne(rules, TreatedMany(rules, st, ids, tier, n - 1), ids[n - 1], tier)
  }

  lemma {:induction false} SameHexes(rules: Rules, st: State, ids: seq<string>, tier: string, n: nat)
    requires n <= |ids|
    ensures var many := TreatedMany(rules, st, ids, tier, n);
            |many.hexes| == |st.hexes| && many.status == st.status && many.treatments >= st.treatments
  {
    if n > 0 { SameHexes(rules, st, ids, tier, n - 1); }
  }

  /** TreatBatch: one status for the whole stroke, and none when nothing was applied. */
  function TreatedBatch(rules: Rules, st: State, ids: seq<string>, tier: string): State
    requires st.hexes != []
  {
    SameHexes(rules, st, ids, tier, |ids|);
    var many := TreatedMany(rules, st, ids, tier, |ids|);
    if many.treatments > st.treatments then Recomputed(rules, many) else st
  }

  // ------------------------------------------------------------------- setup

  datatype HexConfig = HexConfig(id: string, roadArea: real, k: real)

  /** A game's configuration. */
  datatype Config = Config(hexes: seq<HexConfig>, initialPCI: real, pciJitter: real, tiers: seq<CostTier>,
                           startingBudget: real, horizon: real, treatmentCycleYears: real, growthRate: real,
                           cohorts: seq<CohortConfig>, endless: bool)

  /** validateConfig. */
  predicate Accepted(cfg: Config) {
    && cfg.hexes != [] && cfg.tiers != []
    && cfg.horizon > 0.0 && 0.0 <= cfg.initialPCI <= 100.0 && cfg.pciJitter >= 0.0
    && (cfg.treatmentCycleYears == 0.0 || 1.0 <= cfg.treatmentCycleYears <= 40.0)
    && (forall i :: 0 <= i < |cfg.tiers| ==> cfg.tiers[i].costPerSqM >= 0.0)
    && (forall i :: 0 <= i < |cfg.hexes| ==>
          cfg.hexes[i].id != "" && cfg.hexes[i].k > 0.0 && cfg.hexes[i].roadArea >= 0.0)
    && (forall i :: 0 <= i < |cfg.cohorts| ==> cfg.cohorts[i].area >= 0.0 && cfg.cohorts[i].decayRate >= 0.0)
  }

  function StartHex(h: HexConfig, initialPCI: real, jitter: real): HexState {
    var pci := ClampPCI(initialPCI + jitter);
    HexState(h.id, h.roadArea, h.k, pci, pci <= ClosureEpsilon)
  }

  /** The board New sets up; offsets gives each id its jitter. */
  function Start(cfg: Config, offsets: (string, real) -> real): State {
    var budget := Max(0.0, cfg.startingBudget);
    State(seq(|cfg.hexes|, i requires 0 <= i < |cfg.hexes| =>
            StartHex(cfg.hexes[i], cfg.initialPCI, offsets(cfg.hexes[i].id, cfg.pciJitter))),
          budget, budget, 0.0, 0.0, Running, 0.0, 0)
  }

  /** The macro forecast's inputs, with the cycle resolved. */
  function OutlookOf(cfg: Config): Outlook {
    Outlook(cfg.cohorts, cfg.initialPCI, cfg.growthRate, cfg.tiers, Scenario.ResolveCycleYears(cfg.treatmentCycleYears),
            cfg.horizon)
  }

  function Areas(hexes: seq<HexConfig>): seq<real> {
    seq(|hexes|, i requires 0 <= i < |hexes| => hexes[i].roadArea)
  }

  /** The dearest price, or 0. */
  function Dearest(tiers: seq<CostTier>, n: nat): real
    requires n <= |tiers|
  {
    if n == 0 then 0.0 else Max(Dearest(tiers, n - 1), tiers[n - 1].costPerSqM)
  }

  /** The cheapest price of the first n tiers. */
  function Cheapest(tiers: seq<CostTier>, n: nat): (c: real)
    requires 0 < n <= |tiers|
    ensures forall i :: 0 <= i < n ==> c <= tiers[i].costPerSqM
    ensures exists i :: 0 <= i < n && c == tiers[i].costPerSqM
  {
    if n == 1 then tiers[0].costPerSqM
    else
      var c := Cheapest(tiers, n - 1);
      if tiers[n - 1].costPerSqM < c then tiers[n - 1].costPerSqM else c
  }

  /** Some hex is open, and no open hex can be paid for even at the cheapest price. */
  ghost predicate OutOfFunds(tiers: seq<CostTier>, st: State)
    requires tiers != []
  {
    && (exists i :: 0 <= i < |st.hexes| && !st.hexes[i].closed)
    && (forall i :: 0 <= i < |st.hexes| && !st.hexes[i].closed ==>
          st.treasury < Part(st.hexes[i].roadArea, Cheapest(tiers, |tiers|)))
  }

  // ------------------------------------------------------------ the game object

  ghost predicate Ranked(ranks: seq<nat>, tiers: seq<CostTier>) {
    |ranks| == |tiers| && forall i :: 0 <= i < |tiers| ==> ranks[i] == RankUpTo(tiers, i, |tiers|)
  }

  /** hexByID leads to the first hex with each id. */
  ghost predicate Indexed(byID: map<string, nat>, hexes: seq<HexState>) {
    forall id :: (id in byID <==> Find(hexes, id) < |hexes|) && (id in byID ==> byID[id] == Find(hexes, id))
  }

  method RankTiers(tiers: seq<CostTier>) returns (ranks: seq<nat>)
    ensures Ranked(ranks, tiers)
  {
    ranks := [];
    for i := 0 to |tiers|
      invariant |ranks| == i && forall j :: 0 <= j < i ==> ranks[j] == RankUpTo(tiers, j, |tiers|)
    {
      var rank := TierCostRank(tiers, i);
      ranks := ranks + [rank];
    }
  }

  method DearestOf(tiers: seq<CostTier>) returns (maxCost: real)
    ensures maxCost == Dearest(tiers, |tiers|)
  {
    maxCost := 0.0;
    for i := 0 to |tiers|
      invariant maxCost == Dearest(tiers, i)
    {
      if tiers[i].costPerSqM > maxCost {
        maxCost := tiers[i].costPerSqM;
      }
    }
  }

  lemma {:induction false} FindFirst(hexes: seq<HexState>, id: string, i: nat)
    requires i < |hexes| && hexes[i].id == id && forall j :: 0 <= j < i ==> hexes[j].id != id
    ensures Find(hexes, id) == i
  {
  }

  lemma StartKeepsID(h: HexConfig, initialPCI: real, jitter: real)
    ensures StartHex(h, initialPCI, jitter).id == h.id
  {
  }

  /** New's board loop: the first hex with an id is the one found by it. */
  method SetUpBoard(cfg: Config, offsets: (string, real) -> real)
    returns (board: seq<HexState>, byID: map<string, nat>, totalArea: real)
    ensures board == Start(cfg, offsets).hexes && Indexed(byID, board) && totalArea == Sum(Areas(cfg.hexes))
  {
    hide StartHex, Find;
    board, byID, totalArea := [], map[], 0.0;
    ghost var all := Start(cfg, offsets).hexes;
    for i := 0 to |cfg.hexes|
      invariant board == all[..i] && totalArea == SumUpTo(Areas(cfg.hexes), i)
      invariant forall id :: id in byID ==> byID[id] < i && all[byID[id]].id == id
      invariant forall id :: id in byID ==> forall j :: 0 <= j < byID[id] ==> all[j].id != id
      invariant forall j :: 0 <= j < i ==> all[j].id in byID
    {
      var h := cfg.hexes[i];
      StartKeepsID(h, cfg.initialPCI, offsets(h.id, cfg.pciJitter));
      board := board + [StartHex(h, cfg.initialPCI, offsets(h.id, cfg.pciJitter))];
      if h.id !in byID {
        byID := byID[h.id := i];
      }
      totalArea := totalArea + h.roadArea;
    }
    assert all[..|all|] == all;
    forall id | id in byID
      ensures byID[id] == Find(board, id)
    {
      FindFirst(board, id, byID[id]);
    }
  }

  class Game {
    var hexes: seq<HexState>
    const hexByID: map<string, nat>
    var treasury: real
    var budgetRate: real
    var backlog: real
    var simYears: real
    var status: Status
    var spent: real
    var treatments: nat
    const tiers: seq<CostTier>
    const tierRanks: seq<nat>
    const cost: TieredCostProjector
    const exp: ExpFn
    const horizon: real
    const endless: bool
    const loseBacklogCeiling: real
    const outlook: Outlook
    const interior: BetaFn
    var insolvencyYear: int
    var insolvencyOK: bool

    /** Among the rest: the cached headline is the one for the current budget. */
    ghost predicate Valid()
      reads this, cost
    {
      && (insolvencyYear, insolvencyOK) == Headline(outlook, interior, exp, budgetRate)
      && cost.Valid() && cost.tiers == tiers && cost.overhead == 0.0 && hexes != []
      && Ranked(tierRanks, tiers) && Indexed(hexByID, hexes)
    }

    ghost function Now(): State
      reads this
    {
      State(hexes, treasury, budgetRate, backlog, simYears, status, spent, treatments)
    }

    ghost function Fixed(): Rules
      reads this
    {
      Rules(tiers, ProjectorAnchors(tiers, 0.0), exp, horizon, endless, loseBacklogCeiling)
    }

    /** The board and rules of a configuration that passes validation. */
    constructor (cfg: Config, offsets: (string, real) -> real, exp: ExpFn, interior: BetaFn)
      requires Accepted(cfg)
      ensures outlook == OutlookOf(cfg) && this.interior == interior
      ensures Valid() && fresh(cost) && Now() == Start(cfg, offsets)
      ensures Fixed() == Rules(cfg.tiers, ProjectorAnchors(cfg.tiers, 0.0), exp, cfg.horizon, cfg.endless,
                               Sum(Areas(cfg.hexes)) * Dearest(cfg.tiers, |cfg.tiers|))
    {
      hide ProjectorAnchors, Ranked, Indexed, Sum, Areas, Headline;
      this.tiers, this.exp, horizon, endless := cfg.tiers, exp, cfg.horizon, cfg.endless;
      var budget := if cfg.startingBudget < 0.0 then 0.0 else cfg.startingBudget;
      treasury, budgetRate, backlog, simYears, status := budget, budget, 0.0, 0.0, Running;
      spent, treatments := 0.0, 0;
      cost := new TieredCostProjector(cfg.tiers, 0.0);
      var maxCost := DearestOf(cfg.tiers);
      var board, byID, totalArea := SetUpBoard(cfg, offsets);
      hexes, hexByID := board, byID;
      loseBacklogCeiling := totalArea * maxCost;
      var ranks := RankTiers(cfg.tiers);
      tierRanks := ranks;
      outlook, this.interior := OutlookOf(cfg), interior;
      var year, ok := InsolvencyFromForecast(OutlookOf(cfg), interior, exp, budget);
      insolvencyYear, insolvencyOK := year, ok;
    }

    method CountOpen() returns (pci: real, closed: nat)
      requires Valid()
      ensures pci == NetworkPCI(hexes) && closed == Closed(hexes, |hexes|)
    {
      hide Ranked, Indexed, Headline, ProjectorAnchors, Valid;
      var num, den := 0.0, 0.0;
      closed := 0;
      ghost var weights, areas := Conditions(hexes), OpenAreas(hexes);
      for i := 0 to |hexes|
        invariant closed == Closed(hexes, i)
        invariant num == SumUpTo(weights, i) && den == SumUpTo(areas, i)
      {
        var h := hexes[i];
        assert areas[i] == OpenArea(h) && weights[i] == if h.closed then 0.0 else h.pci * h.roadArea;
        if h.closed {
          closed := closed + 1;
        } else {
          num, den := num + h.pci * h.roadArea, den + h.roadArea;
        }
      }
      pci := if den <= 0.0 then 0.0 else num / den;
    }

    method RecomputeStatus()
      requires Valid()
      modifies this`status
      ensures Valid() && Now() == old(Recomputed(Fixed(), Now()))
    {
      if status != Running {
        return;
      }
      var pci, closed := CountOpen();
      if pci < LosePCIFloor || closed as real / |hexes| as real > LoseClosedFraction || backlog > loseBacklogCeiling {
        status := Lost;
        return;
      }
      if !endless && simYears >= horizon {
        status := Won;
      }
    }

    /** Tick. */
    method Tick(dt: real)
      requires Valid()
      modifies this`simYears, this`treasury, this`backlog, this`hexes, this`status, cost
      ensures Valid() && Now() == old(Ticked(Fixed(), Now(), dt))
    {
      hide ProjectorAnchors, Recomputed, Ranked, Indexed, Headline, Part, Decayed, NeedsOver, Sum, Valid;
      if dt <= 0.0 || status != Running {
        return;
      }
      ghost var rules, was := Fixed(), Now();
      Refill(dt);
      DecayAll(dt);
      assert Now() == Advanced(rules, was, dt);
      RecomputeStatus();
    }

    method Refill(dt: real)
      requires Valid()
      modifies this`simYears, this`treasury
      ensures Valid() && simYears == old(simYears) + dt && treasury == old(treasury) + Part(budgetRate, dt)
    {
      hide Ranked, Indexed, Headline, Part;
      simYears := simYears + dt;
      treasury := treasury + Part(budgetRate, dt);
    }

    /** Tick's loop over the hexes. */
    method DecayAll(dt: real)
      requires Valid()
      modifies this`backlog, this`hexes, cost
      ensures Valid() && hexes == Decayed(exp, old(hexes), dt)
      ensures backlog == old(backlog) + Sum(old(NeedsOver(Fixed(), hexes, dt)))
    {
      hide ProjectorAnchors, Ranked, Indexed, Headline, Need, DecayHex, Decayed, NeedsOver;
      ghost var rules, was, owed := Fixed(), hexes, backlog;
      HalfDecayedStart(rules, hexes, dt);
      ghost var needs := NeedsOver(rules, was, dt);
      for i := 0 to |hexes|
        invariant Valid() && Fixed() == rules && |needs| == |was|
        invariant HalfDecayed(exp, was, dt, i, hexes)
        invariant backlog == owed + SumUpTo(needs, i)
      {
        HalfDecayedStep(rules, was, dt, i, hexes);
        DecayOne(i, dt);
      }
      FullyDecayed(exp, was, dt, hexes);
    }

    /** The body of Tick's loop. */
    method DecayOne(i: nat, dt: real)
      requires Valid() && i < |hexes|
      modifies this`hexes, this`backlog, cost
      ensures Valid() && Fixed() == old(Fixed())
      ensures hexes == old(hexes)[i := DecayHex(exp, old(hexes[i]), dt)]
      ensures backlog == old(backlog) + old(Need(Fixed(), hexes[i], dt))
    {
      hide ProjectorAnchors, CostAt, Ranked, Indexed, Headline, Faded, NeedFor;
      var h := hexes[i];
      if h.closed {
        assert hexes == hexes[i := h];
        return;
      }
      var after := Faded(exp, h, dt);
      var delta := h.pci - after;
      if delta > 0.0 {
        var price := cost.ProjectCost(h.roadArea, after);
        Weigh(ProjectorAnchors(tiers, 0.0), h.roadArea, after, delta);
        backlog := backlog + price * (delta / 100.0);
      }
      h := h.(pci := after);
      if h.pci <= ClosureEpsilon {
        h := h.(pci := 0.0, closed := true);
      }
      IndexStays(hexByID, hexes, i, h);
      hexes := hexes[i := h];
    }

    /** treatOne. */
    method TreatOne(id: string, tier: string) returns (applied: bool)
      requires Valid()
      modifies this`treasury, this`spent, this`treatments, this`backlog, this`hexes
      ensures Valid() && applied == old(CanTreat(Fixed(), Now(), id, tier))
      ensures Now() == old(TreatedOne(Fixed(), Now(), id, tier))
    {
      hide ProjectorAnchors, Ranked, Indexed, Headline, Lifted, ResolveTier, Lift, Find, Price;
      FoundBy(hexByID, hexes, id);
      if status != Running || id !in hexByID {
        return false;
      }
      var i := hexByID[id];
      var ti := ResolveTier(tiers, tier, hexes[i].pci);
      if ti < 0 {
        return false;
      }
      var price := Price(tiers, ti, hexes[i]);
      if treasury < price {
        return false;
      }
      treasury := treasury - price;
      spent := spent + price;
      treatments := treatments + 1;
      backlog := backlog - price;
      if backlog < 0.0 {
        backlog := 0.0;
      }
      var lifted := LiftHex(hexes[i], tierRanks, ti, tiers);
      IndexStays(hexByID, hexes, i, lifted);
      hexes := hexes[i := lifted];
      return true;
    }

    /** Treat. */
    method Treat(id: string, tier: string) returns (applied: bool)
      requires Valid()
      modifies this`treasury, this`spent, this`treatments, this`backlog, this`hexes, this`status
      ensures Valid() && applied == old(CanTreat(Fixed(), Now(), id, tier))
      ensures Now() == old(Treated(Fixed(), Now(), id, tier))
    {
      hide ProjectorAnchors, Recomputed, CanTreat, Headline, Ranked, Indexed;
      applied := TreatOne(id, tier);
      if applied {
        RecomputeStatus();
      }
    }

    /** TreatBatch. */
    method TreatBatch(ids: seq<string>, tier: string) returns (applied: nat)
      requires Valid()
      modifies this`treasury, this`spent, this`treatments, this`backlog, this`hexes, this`status
      ensures Valid() && Now() == old(TreatedBatch(Fixed(), Now(), ids, tier))
      ensures Now().treatments == old(treatments) + applied
    {
      hide ProjectorAnchors, Recomputed, TreatedOne, Headline, Ranked, Indexed;
      ghost var rules, was := Fixed(), Now();
      applied := 0;
      for n := 0 to |ids|
        invariant Valid() && Fixed() == rules && Now() == TreatedMany(rules, was, ids, tier, n)
        invariant treatments == was.treatments + applied
        invariant applied == 0 ==> Now() == was
      {
        CountsTreatments(rules, Now(), ids[n], tier);
        var ok := TreatOne(ids[n], tier);
        if ok {
          applied := applied + 1;
        }
      }
      if applied > 0 {
        StatusOnly(rules, Now());
        RecomputeStatus();
      }
    }

    /** The out-of-funds verdict of StateJSON: the cheapest tier on the smallest open hex. */
    method OutOfFundsNow() returns (verdict: bool)
      requires Valid() && tiers != [] && Cheapest(tiers, |tiers|) >= 0.0
      ensures verdict == OutOfFunds(tiers, Now())
    {
      hide Part, Cheapest, Headline, Ranked, Indexed;
      var minTierCost := Cheapest(tiers, |tiers|);
      var seen, minOpenArea := false, 0.0;
      for i := 0 to |hexes|
        invariant seen <==> exists j :: 0 <= j < i && !hexes[j].closed
        invariant forall j :: 0 <= j < i && !hexes[j].closed ==> minOpenArea <= hexes[j].roadArea
        invariant seen ==> exists j :: 0 <= j < i && !hexes[j].closed && minOpenArea == hexes[j].roadArea
      {
        if !hexes[i].closed && (!seen || hexes[i].roadArea < minOpenArea) {
          seen, minOpenArea := true, hexes[i].roadArea;
        }
      }
      verdict := seen && treasury < Part(minOpenArea, minTierCost);
      forall j | 0 <= j < |hexes| && !hexes[j].closed
        ensures Part(minOpenArea, minTierCost) <= Part(hexes[j].roadArea, minTierCost)
      {
        PartMonotone(minOpenArea, hexes[j].roadArea, minTierCost);
      }
    }

    /** SetBudget: there is no debt, so the rate is never negative; the headline follows it. */
    method SetBudget(rate: real)
      requires Valid()
      modifies this`budgetRate, this`insolvencyYear, this`insolvencyOK
      ensures Valid() && Now() == old(Now()).(budgetRate := Max(0.0, rate))
      ensures (insolvencyYear, insolvencyOK) == Headline(outlook, interior, exp, Max(0.0, rate))
    {
      hide ProjectorAnchors, Ranked, Indexed, Headline;
      budgetRate := if rate < 0.0 then 0.0 else rate;
      insolvencyYear, insolvencyOK := InsolvencyFromForecast(outlook, interior, exp, budgetRate);
    }
  }

  /** New: a configuration that fails validation gives no game. */
  method New(cfg: Config, offsets: (string, real) -> real, exp: ExpFn, interior: BetaFn) returns (g: Game?)
    ensures g == null <==>
            || cfg.hexes == [] || cfg.tiers == []
            || cfg.horizon <= 0.0 || cfg.initialPCI < 0.0 || cfg.initialPCI > 100.0 || cfg.pciJitter < 0.0
            || (cfg.treatmentCycleYears != 0.0 && (cfg.treatmentCycleYears < 1.0 || cfg.treatmentCycleYears > 40.0))
            || (exists t :: t in cfg.tiers && t.costPerSqM < 0.0)
            || (exists h :: h in cfg.hexes && (h.id == "" || h.k <= 0.0 || h.roadArea < 0.0))
            || (exists c :: c in cfg.cohorts && (c.area < 0.0 || c.decayRate < 0.0))
    ensures g != null ==> fresh(g) && fresh(g.cost) && g.Valid() && g.Now() == Start(cfg, offsets)
  {
    hide ProjectorAnchors, Ranked, Indexed, Start, Headline, Accepted;
    AcceptedIff(cfg);
    if !Accepted(cfg) {
      return null;
    }
    g := new Game(cfg, offsets, exp, interior);
  }

  lemma AcceptedIff(cfg: Config)
    ensures !Accepted(cfg) <==>
            || cfg.hexes == [] || cfg.tiers == []
            || cfg.horizon <= 0.0 || cfg.initialPCI < 0.0 || cfg.initialPCI > 100.0 || cfg.pciJitter < 0.0
            || (cfg.treatmentCycleYears != 0.0 && (cfg.treatmentCycleYears < 1.0 || cfg.treatmentCycleYears > 40.0))
            || (exists t :: t in cfg.tiers && t.costPerSqM < 0.0)
            || (exists h :: h in cfg.hexes && (h.id == "" || h.k <= 0.0 || h.roadArea < 0.0))
            || (exists c :: c in cfg.cohorts && (c.area < 0.0 || c.decayRate < 0.0))
  {
    assert (forall i :: 0 <= i < |cfg.tiers| ==> cfg.tiers[i].costPerSqM >= 0.0) <==>
           forall t :: t in cfg.tiers ==> t.costPerSqM >= 0.0;
    assert (forall i :: 0 <= i < |cfg.hexes| ==>
              cfg.hexes[i].id != "" && cfg.hexes[i].k > 0.0 && cfg.hexes[i].roadArea >= 0.0) <==>
           forall h :: h in cfg.hexes ==> h.id != "" && h.k > 0.0 && h.roadArea >= 0.0;
    assert (forall i :: 0 <= i < |cfg.cohorts| ==> cfg.cohorts[i].area >= 0.0 && cfg.cohorts[i].decayRate >= 0.0) <==>
           forall c :: c in cfg.cohorts ==> c.area >= 0.0 && c.decayRate >= 0.0;
  }

  lemma PartMonotone(a: real, b: real, f: real)
    requires a <= b && f >= 0.0
    ensures Part(a, f) <= Part(b, f)
  {
    MulMonotone(a, b, f, a * f, b * f);
  }

  /** The first n hexes have decayed, the others have not. */
  ghost predicate HalfDecayed(exp: ExpFn, was: seq<HexState>, dt: real, n: nat, hexes: seq<HexState>) {
    && |hexes| == |was| && n <= |was|
    && (forall j :: 0 <= j < n ==> hexes[j] == DecayHex(exp, was[j], dt))
    && (forall j :: n <= j < |was| ==> hexes[j] == was[j])
  }

  lemma HalfDecayedStart(rules: Rules, was: seq<HexState>, dt: real)
    ensures HalfDecayed(rules.exp, was, dt, 0, was) && |NeedsOver(rules, was, dt)| == |was|
  {
  }

  lemma HalfDecayedStep(rules: Rules, was: seq<HexState>, dt: real, n: nat, hexes: seq<HexState>)
    requires HalfDecayed(rules.exp, was, dt, n, hexes) && n < |was|
    ensures hexes[n] == was[n] && NeedsOver(rules, was, dt)[n] == Need(rules, hexes[n], dt)
    ensures HalfDecayed(rules.exp, was, dt, n + 1, hexes[n := DecayHex(rules.exp, hexes[n], dt)])
  {
    hide Need, DecayHex;
  }

  lemma FullyDecayed(exp: ExpFn, was: seq<HexState>, dt: real, hexes: seq<HexState>)
    requires HalfDecayed(exp, was, dt, |was|, hexes)
    ensures hexes == Decayed(exp, was, dt)
  {
    hide DecayHex;
  }

  /** treatOne's lift, by the rank fixed at New; it reopens a closed hex above the threshold. */
  method LiftHex(h: HexState, tierRanks: seq<nat>, ti: nat, tiers: seq<CostTier>) returns (lifted: HexState)
    requires ti < |tiers| && Ranked(tierRanks, tiers)
    ensures lifted == Lifted(h, Lift(tiers, ti)) && lifted.id == h.id
  {
    var frac := (tierRanks[ti] + 1) as real / |tiers| as real;
    lifted := h.(pci := ClampPCI(h.pci + (100.0 - h.pci) * frac));
    if lifted.closed && lifted.pci > ClosureEpsilon {
      lifted := lifted.(closed := false);
    }
  }

  lemma Weigh(anchors: seq<Anchor>, area: real, after: real, delta: real)
    ensures NeedFor(anchors, area, after, delta) == (area * CostAt(anchors, after)) * (delta / 100.0)
  {
  }

  lemma FoundBy(byID: map<string, nat>, hexes: seq<HexState>, id: string)
    requires Indexed(byID, hexes)
    ensures id in byID <==> Find(hexes, id) < |hexes|
    ensures id in byID ==> byID[id] == Find(hexes, id)
  {
  }

  lemma IndexStays(byID: map<string, nat>, hexes: seq<HexState>, i: nat, h: HexState)
    requires Indexed(byID, hexes) && i < |hexes| && h.id == hexes[i].id
    ensures Indexed(byID, hexes[i := h])
  {
    hide Find;
    SameIds(hexes, i, h);
  }

  lemma SameIds(hexes: seq<HexState>, i: nat, h: HexState)
    requires i < |hexes| && h.id == hexes[i].id
    ensures forall id :: Find(hexes[i := h], id) == Find(hexes, id)
  {
    forall id
      ensures Find(hexes[i := h], id) == Find(hexes, id)
    {
      SameId(hexes, i, h, id);
    }
  }

  lemma {:induction false} SameId(hexes: seq<HexState>, i: nat, h: HexState, id: string)
    requires i < |hexes| && h.id == hexes[i].id
    ensures Find(hexes[i := h], id) == Find(hexes, id)
  {
    if i > 0 {
      assert hexes[i := h][1..] == hexes[1..][i - 1 := h];
      SameId(hexes[1..], i - 1, h, id);
    } else {
      assert hexes[0 := h][1..] == hexes[1..];
    }
  }

  lemma CountsTreatments(rules: Rules, st: State, id: string, tier: string)
    ensures TreatedOne(rules, st, id, tier).treatments == st.treatments + if CanTreat(rules, st, id, tier) then 1 else 0
    ensures !CanTreat(rules, st, id, tier) ==> TreatedOne(rules, st, id, tier) == st
  {
  }

  lemma StatusOnly(rules: Rules, st: State)
    requires st.hexes != []
    ensures Recomputed(rules, st) == st.(status := Recomputed(rules, st).status)
  {
  }
}
