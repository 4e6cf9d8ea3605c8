/** The tick governor of the orchestrator (internal/runtime/orchestrator.go): interval stretch and
    decay, overrun counting and graduated safety levels. Durations are nanoseconds. */
module Governor {
  import opened Mods
  import opened Reals

  /** `softFactor` stands for the square root of the adapt step. */
  datatype Config = Config(nominal: int, minInterval: int, maxInterval: int, adaptStep: real, softFactor: real,
                           threshold: int)

  /** One tick: did it overrun its deadline, does the forecast exceed 85% of the deadline, does the
      store know services, and were there telemetry windows. */
  datatype Tick = Tick(overran: bool, forecastHigh: bool, hasServices: bool, hasWindows: bool)

  datatype State = State(interval: int, stable: int, overruns: nat, totalOverruns: nat, level: int,
                         mode: bool, tickCount: nat)

  function StepOf(cfg: Config): (step: real)
    ensures step > 1.0
  {
    if cfg.adaptStep <= 1.0 then 1.25 else cfg.adaptStep
  }

  function MinOf(cfg: Config): int {
    if cfg.minInterval <= 0 then cfg.nominal else cfg.minInterval
  }

  function MaxOf(cfg: Config): int {
    if cfg.maxInterval <= 0 || cfg.maxInterval < cfg.nominal then cfg.nominal * 5 else cfg.maxInterval
  }

  function ThresholdOf(cfg: Config): (n: nat)
    ensures 0 < n
  {
    if cfg.threshold <= 0 then 3 else cfg.threshold
  }

  /** A configuration with a positive tick interval; the soft factor is a root of the step. */
  predicate WellFormed(cfg: Config) {
    0 < cfg.nominal && 1.0 <= cfg.softFactor
  }

  function Initial(cfg: Config): State {
    State(cfg.nominal, 0, 0, 0, 0, false, 0)
  }

  function AtMost(x: int, cap: int): int {
    if x > cap then cap else x
  }

  function AtLeast(x: int, floor: int): int {
    if x < floor then floor else x
  }

  /** `time.Duration(float64(interval) * factor)`, capped. */
  function Stretched(cfg: Config, interval: int, factor: real): int {
    AtMost(Times(interval as real, factor).Floor, MaxOf(cfg))
  }

  /** The excess over nominal divided by the step, in whole nanoseconds. */
  function Shrunk(excess: int, step: real): (e: int)
    requires 0 <= excess && 1.0 < step
  {
    (excess as real / step).Floor
  }

  /** The count of ticks, with the bootstrap of the first one. */
  function Counted(s: State, t: Tick): State {
    if s.tickCount == 0 && t.hasWindows then s.(tickCount := 10, stable := 10) else s.(tickCount := s.tickCount + 1)
  }

  function AfterOverrun(cfg: Config, s: State): State {
    var newLevel := AtMost((s.overruns + 1) / ThresholdOf(cfg), 3);
    var s1 := s.(overruns := s.overruns + 1, totalOverruns := s.totalOverruns + 1);
    if newLevel > s.level then s1.(level := newLevel, mode := newLevel >= 2) else s1
  }

  function AfterClean(s: State): State {
    var overruns := if s.overruns > 0 then s.overruns - 1 else 0;
    var s1 := s.(overruns := overruns);
    if s.level > 0 && overruns == 0 && s.stable > 0 && s.stable % 5 == 0
    then s1.(level := s.level - 1, mode := s.level - 1 >= 2) else s1
  }

  /** The end of `tick`: first-tick bootstrap, overrun counting and the safety level. */
  function AfterTick(cfg: Config, s: State, t: Tick): State {
    if t.overran then AfterOverrun(cfg, Counted(s, t)) else AfterClean(Counted(s, t))
  }

  predicate Proactive(cfg: Config, s: State, t: Tick) {
    t.forecastHigh && s.interval == cfg.nominal && s.overruns == 0 && s.tickCount > 10 && !t.hasServices
  }

  /** `adaptInterval`. */
  function AfterAdapt(cfg: Config, s: State, t: Tick): State {
    if s.overruns >= 2 then s.(interval := Stretched(cfg, s.interval, StepOf(cfg)), stable := 0)
    else if Proactive(cfg, s, t) then s.(interval := Stretched(cfg, s.interval, cfg.softFactor), stable := 0)
    else if s.interval > cfg.nominal then
      var shrunk := cfg.nominal + Shrunk(s.interval - cfg.nominal, StepOf(cfg));
      var interval := AtLeast(AtLeast(shrunk, cfg.nominal), MinOf(cfg));
      s.(interval := interval, stable := if interval == cfg.nominal then 0 else s.stable + 1)
    else s.(stable := s.stable + 1)
  }

  function Step(cfg: Config, s: State, t: Tick): State {
    AfterAdapt(cfg, AfterTick(cfg, s, t), t)
  }

  class Orchestrator {
    const cfg: Config
    var currentInterval: int
    var stableTickCount: int
    var consecutiveOverruns: nat
    var totalOverruns: nat
    var safetyLevel: int
    var safetyMode: bool
    var tickCount: nat

    function View(): State
      reads this
    {
      State(currentInterval, stableTickCount, consecutiveOverruns, totalOverruns, safetyLevel, safetyMode, tickCount)
    }

    constructor (c: Config)
      ensures cfg == c && View() == Initial(c)
    {
      cfg := c;
      currentInterval, stableTickCount, consecutiveOverruns, totalOverruns := c.nominal, 0, 0, 0;
      safetyLevel, safetyMode, tickCount := 0, false, 0;
    }

    method ExecuteTick(t: Tick)
      modifies this
      ensures View() == Step(cfg, old(View()), t)
    {
      RunTick(t);
      AdaptInterval(t);
    }

    method RunTick(t: Tick)
      modifies this
      ensures View() == AfterTick(cfg, old(View()), t)
    {
      tickCount := tickCount + 1;
      if tickCount == 1 && t.hasWindows {
        tickCount := 10;
        stableTickCount := 10;
      }
      if t.overran {
        OverrunTick();
      } else {
        CleanTick();
      }
    }

    method OverrunTick()
      modifies this
      ensures View() == AfterOverrun(cfg, old(View()))
    {
      consecutiveOverruns := consecutiveOverruns + 1;
      totalOverruns := totalOverruns + 1;
      var threshold: nat := if cfg.threshold <= 0 then 3 else cfg.threshold;
      var newLevel := consecutiveOverruns / threshold;
      if newLevel > 3 {
        newLevel := 3;
      }
      if newLevel > safetyLevel {
        safetyLevel := newLevel;
        safetyMode := safetyLevel >= 2;
      }
    }

    method CleanTick()
      modifies this
      ensures View() == AfterClean(old(View()))
    {
      if consecutiveOverruns > 0 {
        consecutiveOverruns := consecutiveOverruns - 1;
      }
      if safetyLevel > 0 && consecutiveOverruns == 0 && stableTickCount > 0 && stableTickCount % 5 == 0 {
        safetyLevel := safetyLevel - 1;
        safetyMode := safetyLevel >= 2;
      }
    }

    method AdaptInterval(t: Tick)
      modifies this
      ensures View() == AfterAdapt(cfg, old(View()), t)
    {
      var nominal := cfg.nominal;
      var proactive := t.forecastHigh && currentInterval == nominal && consecutiveOverruns == 0 && tickCount > 10;
      if t.hasServices {
        proactive := false;
      }
      if consecutiveOverruns >= 2 {
        currentInterval := Stretched(cfg, currentInterval, StepOf(cfg));
        stableTickCount := 0;
      } else if proactive {
        currentInterval := Stretched(cfg, currentInterval, cfg.softFactor);
        stableTickCount := 0;
      } else {
        stableTickCount := stableTickCount + 1;
        if currentInterval > nominal {
          var newInterval := nominal + Shrunk(currentInterval - nominal, StepOf(cfg));
          if newInterval < nominal {
            newInterval := nominal;
          }
          if newInterval < MinOf(cfg) {
            newInterval := MinOf(cfg);
          }
          currentInterval := newInterval;
          if currentInterval == nominal {
            stableTickCount := 0;
          }
        }
      }
    }
  }

  // ---------------------------------------------------------------------------------------
  // What every tick keeps
  // ---------------------------------------------------------------------------------------

  /** The widest interval. It is the configured maximum, unless the configured minimum is larger. */
  function TopOf(cfg: Config): int {
    AtLeast(MaxOf(cfg), MinOf(cfg))
  }

  ghost predicate Inv(cfg: Config, s: State) {
    && cfg.nominal <= s.interval <= TopOf(cfg)
    && (MaxOf(cfg) == cfg.nominal ==> s.interval == cfg.nominal)
    && 0 <= s.stable
    && (s.mode <==> s.level >= 2) && 0 <= s.level <= 3
    && AtMost(s.overruns / ThresholdOf(cfg), 3) <= s.level
    && (s.tickCount == 0 ==> Recovered(cfg, s))
  }

  predicate Recovered(cfg: Config, s: State) {
    s.overruns == 0 && s.interval == cfg.nominal && s.level == 0
  }

  lemma DivStep(a: nat, n: nat)
    requires 0 < n
    ensures a / n <= (a + 1) / n <= a / n + 1
  {
    var q, q' := a / n, (a + 1) / n;
    Split(a, n);
    Split(a + 1, n);
    assert (q' - q) * n == 1 + Slot(a, n) - Slot(a + 1, n);
    assert (q - q') * n == Slot(a + 1, n) - Slot(a, n) - 1;
    if q' < q {
      MulAtLeast(q - q', n);
    } else if q + 1 < q' {
      MulAtLeast(q' - q - 1, n);
    }
  }

  lemma StretchedInRange(cfg: Config, interval: int, factor: real)
    requires 0 < cfg.nominal <= interval && 1.0 <= factor
    ensures cfg.nominal <= Stretched(cfg, interval, factor) <= MaxOf(cfg)
    ensures interval <= Stretched(cfg, interval, factor) || Stretched(cfg, interval, factor) == MaxOf(cfg)
  {
    MulMono(1.0, factor, interval as real);
  }

  lemma ShrunkInRange(excess: int, step: real)
    requires 0 <= excess && 1.0 < step
    ensures 0 <= Shrunk(excess, step) <= excess
    ensures Times(Shrunk(excess, step) as real, step) <= excess as real
  {
    var q := excess as real / step;
    assert q * step == excess as real;
    if q < 0.0 {
      MulStrict(q, 0.0, step);
    }
    MulMono(q.Floor as real, q, step);
    if excess as real < q {
      MulStrict(excess as real, q, step);
      MulMono(1.0, step, excess as real);
    }
  }

  lemma TickKeepsInv(cfg: Config, s: State, t: Tick)
    requires WellFormed(cfg) && Inv(cfg, s)
    ensures var s' := AfterTick(cfg, s, t);
      && s'.interval == s.interval && 0 <= s'.stable && 0 < s'.tickCount
      && (s'.mode <==> s'.level >= 2) && 0 <= s'.level <= 3
      && AtMost(s'.overruns / ThresholdOf(cfg), 3) <= s'.level
      && s'.level <= s.level + 1
  {
    DivStep(s.overruns, ThresholdOf(cfg));
    if s.overruns > 0 {
      DivStep(s.overruns - 1, ThresholdOf(cfg));
    }
  }

  lemma AdaptKeepsInterval(cfg: Config, s: State, t: Tick)
    requires WellFormed(cfg) && cfg.nominal <= s.interval <= TopOf(cfg) && 0 <= s.stable
    requires MaxOf(cfg) == cfg.nominal ==> s.interval == cfg.nominal
    ensures var s' := AfterAdapt(cfg, s, t);
      && cfg.nominal <= s'.interval <= TopOf(cfg) && 0 <= s'.stable
      && (MaxOf(cfg) == cfg.nominal ==> s'.interval == cfg.nominal)
      && s' == s.(interval := s'.interval, stable := s'.stable)
  {
    StretchedInRange(cfg, s.interval, StepOf(cfg));
    StretchedInRange(cfg, s.interval, cfg.softFactor);
    ShrunkInRange(s.interval - cfg.nominal, StepOf(cfg));
  }

  /** Interval within its bounds, mode tied to level, level at least what the overruns call for -
      and one tick raises the level by at most one. */
  lemma StepKeepsInv(cfg: Config, s: State, t: Tick)
    requires WellFormed(cfg) && Inv(cfg, s)
    ensures Inv(cfg, Step(cfg, s, t))
    ensures Step(cfg, s, t).level <= s.level + 1
  {
    TickKeepsInv(cfg, s, t);
    AdaptKeepsInterval(cfg, AfterTick(cfg, s, t), t);
  }

  function Run(cfg: Config, s: State, ticks: seq<Tick>): State
    decreases |ticks|
  {
    if ticks == [] then s else Run(cfg, Step(cfg, s, ticks[0]), ticks[1..])
  }

  lemma {:induction false} RunKeepsInv(cfg: Config, s: State, ticks: seq<Tick>)
    requires WellFormed(cfg) && Inv(cfg, s)
    ensures Inv(cfg, Run(cfg, s, ticks))
    decreases |ticks|
  {
    if ticks != [] {
      StepKeepsInv(cfg, s, ticks[0]);
      RunKeepsInv(cfg, Step(cfg, s, ticks[0]), ticks[1..]);
    }
  }

  /** Every run: the interval stays between nominal and the maximum (the larger of the two limits when
      the minimum is above the maximum), the mode is on from level 2, and the level is between what
      the overruns call for and 3. */
  lemma EveryRun(cfg: Config, ticks: seq<Tick>)
    requires WellFormed(cfg)
    ensures var s := Run(cfg, Initial(cfg), ticks);
      && Inv(cfg, s) && cfg.nominal <= s.interval
      && (MinOf(cfg) <= MaxOf(cfg) ==> s.interval <= MaxOf(cfg))
      && (s.mode <==> s.level >= 2) && AtMost(s.overruns / ThresholdOf(cfg), 3) <= s.level <= 3
  {
    RunKeepsInv(cfg, Initial(cfg), ticks);
  }

  // ---------------------------------------------------------------------------------------
  // Recovery
  // ---------------------------------------------------------------------------------------

  /** In time, with services in the store. */
  predicate Clean(t: Tick) {
    !t.overran && t.hasServices
  }

  predicate AllClean(ticks: seq<Tick>) {
    forall i | 0 <= i < |ticks| :: Clean(ticks[i])
  }

  function Less(n: nat, k: nat): nat {
    if n < k then 0 else n - k
  }

  lemma {:induction false} OverrunsRunOut(cfg: Config, s: State, ticks: seq<Tick>)
    requires WellFormed(cfg) && Inv(cfg, s) && AllClean(ticks)
    ensures Run(cfg, s, ticks).overruns == Less(s.overruns, |ticks|)
    decreases |ticks|
  {
    if ticks != [] {
      StepKeepsInv(cfg, s, ticks[0]);
      OverrunsRunOut(cfg, Step(cfg, s, ticks[0]), ticks[1..]);
    }
  }

  /** One clean tick without overruns divides the excess by the step. */
  lemma ExcessShrinks(cfg: Config, s: State, t: Tick)
    requires WellFormed(cfg) && Inv(cfg, s) && Clean(t) && s.overruns == 0 && MinOf(cfg) <= cfg.nominal
    ensures var s' := Step(cfg, s, t);
      && s'.overruns == 0 && s'.interval <= s.interval
      && Times(Excess(cfg, s'), StepOf(cfg)) <= Excess(cfg, s)
  {
    ShrunkInRange(s.interval - cfg.nominal, StepOf(cfg));
    assert Times(0.0, StepOf(cfg)) == 0.0;
  }

  lemma PowGrows(x: real, k: nat)
    requires 1.0 <= x
    ensures 1.0 <= Pow(x, k)
  {
    if k > 0 {
      PowGrows(x, k - 1);
      MulMono(1.0, Pow(x, k - 1), x);
    }
  }

  /** The excess over the nominal interval. */
  function Excess(cfg: Config, s: State): real {
    (s.interval - cfg.nominal) as real
  }

  lemma {:induction false} ExcessAfter(cfg: Config, s: State, ticks: seq<Tick>)
    requires WellFormed(cfg) && Inv(cfg, s) && AllClean(ticks) && s.overruns == 0 && MinOf(cfg) <= cfg.nominal
    ensures var s' := Run(cfg, s, ticks);
      s'.overruns == 0 && Times(Excess(cfg, s'), Pow(StepOf(cfg), |ticks|)) <= Excess(cfg, s)
    decreases |ticks|
  {
    if ticks == [] {
      assert Times(Excess(cfg, s), 1.0) == Excess(cfg, s);
    } else {
      var mid := Step(cfg, s, ticks[0]);
      StepKeepsInv(cfg, s, ticks[0]);
      ExcessShrinks(cfg, s, ticks[0]);
      ExcessAfter(cfg, mid, ticks[1..]);
      Rescale(Excess(cfg, Run(cfg, mid, ticks[1..])), StepOf(cfg), |ticks| - 1, Excess(cfg, mid));
    }
  }

  lemma Rescale(e: real, step: real, k: nat, m: real)
    requires Times(e, Pow(step, k)) <= m && 0.0 <= step
    ensures Times(e, Pow(step, k + 1)) <= Times(m, step)
  {
    var p := Pow(step, k);
    MulMono(e * p, m, step);
    assert e * (step * p) == (e * p) * step;
  }

  /** As soon as the step's power exceeds the excess, the interval is exactly nominal. */
  lemma IntervalReturns(cfg: Config, s: State, ticks: seq<Tick>)
    requires WellFormed(cfg) && Inv(cfg, s) && AllClean(ticks) && s.overruns == 0 && MinOf(cfg) <= cfg.nominal
    requires Pow(StepOf(cfg), |ticks|) > (MaxOf(cfg) - cfg.nominal) as real
    ensures Run(cfg, s, ticks).interval == cfg.nominal && Run(cfg, s, ticks).overruns == 0
  {
    ExcessAfter(cfg, s, ticks);
    RunKeepsInv(cfg, s, ticks);
    var e, p := Excess(cfg, Run(cfg, s, ticks)), Pow(StepOf(cfg), |ticks|);
    PowGrows(StepOf(cfg), |ticks|);
    BelowOne(e, p, (MaxOf(cfg) - cfg.nominal) as real);
  }

  lemma BelowOne(e: real, p: real, x: real)
    requires Times(e, p) <= x < p && 1.0 <= p
    ensures e < 1.0
  {
    if e >= 1.0 {
      MulMono(1.0, e, p);
    }
  }

  /** Clean ticks, at the nominal interval, until the safety level is cleared. */
  function LevelTicks(s: State): nat
    requires 0 <= s.stable && 0 <= s.level
  {
    if s.level == 0 then 0
    else (if s.stable == 0 then 6 else 1 + (5 - s.stable % 5) % 5) + 5 * (s.level - 1)
  }

  lemma LevelTicksBound(s: State)
    requires 0 <= s.stable && 0 <= s.level <= 3
    ensures LevelTicks(s) <= 16
  {
  }

  lemma LevelStep(cfg: Config, s: State, t: Tick)
    requires WellFormed(cfg) && Inv(cfg, s) && Clean(t) && 0 < s.tickCount
    requires s.overruns == 0 && s.interval == cfg.nominal
    ensures var s' := Step(cfg, s, t);
      && s'.overruns == 0 && s'.interval == cfg.nominal && 0 < s'.tickCount
      && LevelTicks(s') <= Less(LevelTicks(s), 1)
  {
    assert Step(cfg, s, t).stable == s.stable + 1;
  }

  lemma {:induction false} LevelClears(cfg: Config, s: State, ticks: seq<Tick>)
    requires WellFormed(cfg) && Inv(cfg, s) && AllClean(ticks) && 0 < s.tickCount
    requires s.overruns == 0 && s.interval == cfg.nominal && LevelTicks(s) <= |ticks|
    ensures Recovered(cfg, Run(cfg, s, ticks))
    decreases |ticks|
  {
    if ticks != [] {
      StepKeepsInv(cfg, s, ticks[0]);
      LevelStep(cfg, s, ticks[0]);
      LevelClears(cfg, Step(cfg, s, ticks[0]), ticks[1..]);
    }
  }

  lemma {:induction false} RunSplit(cfg: Config, s: State, ticks: seq<Tick>, n: nat)
    requires n <= |ticks|
    ensures Run(cfg, s, ticks) == Run(cfg, Run(cfg, s, ticks[..n]), ticks[n..])
    decreases |ticks|
  {
    if n > 0 {
      RunSplit(cfg, Step(cfg, s, ticks[0]), ticks[1..], n - 1);
      assert ticks[..n][1..] == ticks[1..][..n - 1];
    }
  }

  lemma {:induction false} TickCountGrows(cfg: Config, s: State, ticks: seq<Tick>)
    ensures s.tickCount <= Run(cfg, s, ticks).tickCount
    decreases |ticks|
  {
    if ticks != [] {
      TickCountGrows(cfg, Step(cfg, s, ticks[0]), ticks[1..]);
    }
  }

  lemma {:induction false} StaysRecovered(cfg: Config, s: State, ticks: seq<Tick>)
    requires WellFormed(cfg) && Inv(cfg, s) && AllClean(ticks) && Recovered(cfg, s)
    ensures Recovered(cfg, Run(cfg, s, ticks))
    decreases |ticks|
  {
    if ticks != [] {
      StepKeepsInv(cfg, s, ticks[0]);
      StaysRecovered(cfg, Step(cfg, s, ticks[0]), ticks[1..]);
    }
  }

  /** From any state without overruns, `n` clean ticks bring the interval back to nominal. */
  ghost predicate DecaysWithin(cfg: Config, n: nat) {
    forall s, ticks | Inv(cfg, s) && s.overruns == 0 && AllClean(ticks) && |ticks| == n ::
      Run(cfg, s, ticks).interval == cfg.nominal && Run(cfg, s, ticks).overruns == 0
  }

  lemma PowerSuffices(cfg: Config, n: nat)
    requires WellFormed(cfg) && MinOf(cfg) <= cfg.nominal
    requires Pow(StepOf(cfg), n) > (MaxOf(cfg) - cfg.nominal) as real
    ensures DecaysWithin(cfg, n)
  {
    forall s, ticks | Inv(cfg, s) && s.overruns == 0 && AllClean(ticks) && |ticks| == n
      ensures Run(cfg, s, ticks).interval == cfg.nominal && Run(cfg, s, ticks).overruns == 0
    {
      IntervalReturns(cfg, s, ticks);
    }
  }

  lemma WithoutOverruns(cfg: Config, s: State, ticks: seq<Tick>)
    requires WellFormed(cfg) && Inv(cfg, s) && AllClean(ticks) && s.overruns == |ticks| && 0 < s.tickCount
    ensures var s' := Run(cfg, s, ticks); Inv(cfg, s') && s'.overruns == 0 && 0 < s'.tickCount
  {
    OverrunsRunOut(cfg, s, ticks);
    RunKeepsInv(cfg, s, ticks);
    TickCountGrows(cfg, s, ticks);
  }

  lemma RecoveryWithoutOverruns(cfg: Config, s: State, ticks: seq<Tick>, decay: nat)
    requires WellFormed(cfg) && Inv(cfg, s) && AllClean(ticks) && DecaysWithin(cfg, decay)
    requires s.overruns == 0 && 0 < s.tickCount && decay + 16 <= |ticks|
    ensures Recovered(cfg, Run(cfg, s, ticks))
  {
    var b, rest := ticks[..decay], ticks[decay..];
    RunSplit(cfg, s, ticks, decay);
    RunKeepsInv(cfg, s, b);
    TickCountGrows(cfg, s, b);
    var s2 := Run(cfg, s, b);
    LevelTicksBound(s2);
    LevelClears(cfg, s2, rest);
  }

  lemma RecoveryWithin(cfg: Config, s: State, ticks: seq<Tick>, decay: nat)
    requires WellFormed(cfg) && Inv(cfg, s) && AllClean(ticks) && DecaysWithin(cfg, decay)
    requires s.overruns + decay + 16 <= |ticks|
    ensures Recovered(cfg, Run(cfg, s, ticks))
  {
    if s.tickCount == 0 {
      StaysRecovered(cfg, s, ticks);
    } else {
      RunSplit(cfg, s, ticks, s.overruns);
      WithoutOverruns(cfg, s, ticks[..s.overruns]);
      RecoveryWithoutOverruns(cfg, Run(cfg, s, ticks[..s.overruns]), ticks[s.overruns..], decay);
    }
  }

  /** Recovery. From any state, one clean tick per overrun, `decay` ticks such that the step to that
      power exceeds the widest excess, and 16 more, bring the governor back to zero overruns, exactly
      the nominal interval and level 0. */
  lemma Recovery(cfg: Config, s: State, ticks: seq<Tick>, decay: nat)
    requires WellFormed(cfg) && Inv(cfg, s) && MinOf(cfg) <= cfg.nominal && AllClean(ticks)
    requires Pow(StepOf(cfg), decay) > (MaxOf(cfg) - cfg.nominal) as real
    requires s.overruns + decay + 16 <= |ticks|
    ensures Recovered(cfg, Run(cfg, s, ticks))
  {
    PowerSuffices(cfg, decay);
    RecoveryWithin(cfg, s, ticks, decay);
  }

  lemma {:induction false} Bernoulli(x: real, k: nat)
    requires 0.0 <= x
    ensures 1.0 + k as real * x <= Pow(1.0 + x, k)
  {
    if k > 0 {
      Bernoulli(x, k - 1);
      MulMono(1.0 + (k - 1) as real * x, Pow(1.0 + x, k - 1), 1.0 + x);
      assert 0.0 <= (k - 1) as real * x * x;
      assert (1.0 + (k - 1) as real * x) * (1.0 + x) == 1.0 + k as real * x + (k - 1) as real * x * x;
    }
  }

  /** There always is such a number of decay ticks. */
  lemma DecayExists(cfg: Config) returns (decay: nat)
    requires WellFormed(cfg)
    ensures Pow(StepOf(cfg), decay) > (MaxOf(cfg) - cfg.nominal) as real
  {
    var x, excess := StepOf(cfg) - 1.0, (MaxOf(cfg) - cfg.nominal) as real;
    decay := EnoughTimes(excess, x);
    Bernoulli(x, decay);
    assert 1.0 + x == StepOf(cfg);
  }

  lemma EnoughTimes(y: real, x: real) returns (k: nat)
    requires 0.0 < x
    ensures y <= k as real * x
  {
    var q := y / x;
    assert q * x == y;
    k := if q < 0.0 then 0 else q.Floor + 1;
    MulMono(q, k as real, x);
  }

  /** When the configured minimum exceeds the nominal interval, an interval once stretched never
      returns to nominal, whatever the ticks. */
  lemma {:induction false} NoReturnAboveMinimum(cfg: Config, s: State, ticks: seq<Tick>)
    requires WellFormed(cfg) && Inv(cfg, s) && cfg.nominal < MinOf(cfg) && cfg.nominal < s.interval
    ensures cfg.nominal < Run(cfg, s, ticks).interval
    decreases |ticks|
  {
    if ticks != [] {
      StepKeepsInv(cfg, s, ticks[0]);
      StretchedInRange(cfg, s.interval, StepOf(cfg));
      StretchedInRange(cfg, s.interval, cfg.softFactor);
      NoReturnAboveMinimum(cfg, Step(cfg, s, ticks[0]), ticks[1..]);
    }
  }

  /** Exactly when a stretched interval can be recovered at all. */
  lemma ReturnsIff(cfg: Config, s: State)
    requires WellFormed(cfg) && Inv(cfg, s) && cfg.nominal < s.interval
    ensures (exists ticks :: AllClean(ticks) && Recovered(cfg, Run(cfg, s, ticks))) <==> MinOf(cfg) <= cfg.nominal
  {
    if MinOf(cfg) <= cfg.nominal {
      var decay := DecayExists(cfg);
      var ticks := seq(s.overruns + decay + 16, _ => Tick(false, false, true, false));
      Recovery(cfg, s, ticks, decay);
      assert AllClean(ticks) && Recovered(cfg, Run(cfg, s, ticks));
    } else {
      forall ticks: seq<Tick>
        ensures !Recovered(cfg, Run(cfg, s, ticks))
      {
        NoReturnAboveMinimum(cfg, s, ticks);
      }
    }
  }

  /** Two overrunning ticks in a row stretch the nominal interval, when a step reaches the next
      nanosecond and the maximum allows it. */
  lemma OverrunsStretch(cfg: Config)
    requires WellFormed(cfg) && cfg.nominal < Stretched(cfg, cfg.nominal, StepOf(cfg))
    ensures var ticks := [Tick(true, false, true, false), Tick(true, false, true, false)];
      var s := Run(cfg, Initial(cfg), ticks);
      Inv(cfg, s) && s.interval == Stretched(cfg, cfg.nominal, StepOf(cfg))
  {
    var t := Tick(true, false, true, false);
    var ticks := [t, t];
    EveryRun(cfg, ticks);
    assert ticks[1..] == [t] && [t][1..] == [];
    var s1 := Step(cfg, Initial(cfg), t);
    assert s1.overruns == 1 && s1.interval == cfg.nominal;
    assert Run(cfg, s1, [t]) == Run(cfg, Step(cfg, s1, t), []) == Step(cfg, s1, t);
    assert Run(cfg, Initial(cfg), ticks) == Run(cfg, s1, [t]);
  }

  /** With a minimum above nominal two overruns from the start are enough: the interval is stretched,
      and never returns. */
  lemma MinimumAboveNominalSticks(cfg: Config, later: seq<Tick>)
    requires WellFormed(cfg) && cfg.nominal < MinOf(cfg) && cfg.nominal < Stretched(cfg, cfg.nominal, StepOf(cfg))
    ensures var ticks := [Tick(true, false, true, false), Tick(true, false, true, false)];
      cfg.nominal < Run(cfg, Run(cfg, Initial(cfg), ticks), later).interval
  {
    OverrunsStretch(cfg);
    NoReturnAboveMinimum(cfg, Run(cfg, Initial(cfg), [Tick(true, false, true, false), Tick(true, false, true, false)]),
                         later);
  }

  /** For instance ticks of one second, at least two and at most five. */
  lemma OneSecondGovernorSticks()
    ensures var cfg := Config(1_000_000_000, 2_000_000_000, 5_000_000_000, 1.25, 1.1, 3);
      WellFormed(cfg) && cfg.nominal < MinOf(cfg) && cfg.nominal < Stretched(cfg, cfg.nominal, StepOf(cfg))
  {
    assert Times(1_000_000_000.0, 1.25) == 1_250_000_000.0;
    assert 1_250_000_000.0.Floor == 1_250_000_000;
  }

  // ---------------------------------------------------------------------------------------
  // How the safety level rises and falls
  // ---------------------------------------------------------------------------------------

  lemma {:induction false} DivMono(a: nat, b: nat, n: nat)
    requires 0 < n && a <= b
    ensures a / n <= b / n
    decreases b
  {
    if a < b {
      DivMono(a, b - 1, n);
      DivStep(b - 1, n);
    }
  }

  /** The level called for by a count of overruns. */
  function LevelFor(cfg: Config, overruns: nat): (level: int)
    ensures 0 <= level <= 3
  {
    AtMost(overruns / ThresholdOf(cfg), 3)
  }

  lemma LevelForMono(cfg: Config, a: nat, b: nat)
    requires a <= b
    ensures LevelFor(cfg, a) <= LevelFor(cfg, b)
    ensures b < ThresholdOf(cfg) ==> LevelFor(cfg, b) == 0
  {
    DivMono(a, b, ThresholdOf(cfg));
  }

  /** One tick: the level rises only on an overrun whose count calls for a higher one, and then to
      exactly that; it falls only on a clean tick that leaves no overruns and finds the stable count at
      a positive multiple of five, and then by one; otherwise it stays. */
  lemma LevelMoves(cfg: Config, s: State, t: Tick)
    requires WellFormed(cfg) && Inv(cfg, s)
    ensures var stable, level := Counted(s, t).stable, Step(cfg, s, t).level;
      && (level > s.level <==> t.overran && LevelFor(cfg, s.overruns + 1) > s.level)
      && (level > s.level ==> level == LevelFor(cfg, s.overruns + 1))
      && (level < s.level <==> !t.overran && s.overruns <= 1 && 0 < s.level && 0 < stable && stable % 5 == 0)
      && (level < s.level ==> level == s.level - 1)
    ensures Step(cfg, s, t).mode <==> Step(cfg, s, t).level >= 2
    ensures t.overran ==> Step(cfg, s, t).overruns == s.overruns + 1
    ensures !t.overran ==> Step(cfg, s, t).overruns == (if s.overruns > 0 then s.overruns - 1 else 0)
  {
    StepKeepsInv(cfg, s, t);
  }

  function Larger(a: nat, b: nat): nat {
    if a < b then b else a
  }

  /** The largest overrun count on the way. */
  function Peak(cfg: Config, s: State, ticks: seq<Tick>): nat
    decreases |ticks|
  {
    if ticks == [] then s.overruns else Larger(s.overruns, Peak(cfg, Step(cfg, s, ticks[0]), ticks[1..]))
  }

  lemma LevelWithinStep(cfg: Config, s: State, t: Tick, p: nat)
    requires WellFormed(cfg) && Inv(cfg, s) && s.level <= LevelFor(cfg, p)
    ensures Step(cfg, s, t).level <= LevelFor(cfg, Larger(p, Step(cfg, s, t).overruns))
  {
    LevelMoves(cfg, s, t);
    var q := Larger(p, Step(cfg, s, t).overruns);
    LevelForMono(cfg, p, q);
    LevelForMono(cfg, Step(cfg, s, t).overruns, q);
  }

  lemma {:induction false} LevelWithinPeak(cfg: Config, s: State, ticks: seq<Tick>, p: nat, bound: nat)
    requires WellFormed(cfg) && Inv(cfg, s) && s.level <= LevelFor(cfg, p)
    requires p <= bound && Peak(cfg, s, ticks) <= bound
    ensures Run(cfg, s, ticks).level <= LevelFor(cfg, bound)
    decreases |ticks|
  {
    if ticks == [] {
      LevelForMono(cfg, p, bound);
    } else {
      var s' := Step(cfg, s, ticks[0]);
      StepKeepsInv(cfg, s, ticks[0]);
      LevelWithinStep(cfg, s, ticks[0], p);
      PeakFromStart(cfg, s', ticks[1..]);
      LevelWithinPeak(cfg, s', ticks[1..], Larger(p, s'.overruns), bound);
    }
  }

  lemma PeakFromStart(cfg: Config, s: State, ticks: seq<Tick>)
    ensures s.overruns <= Peak(cfg, s, ticks)
  {
  }

  /** In every run the level is at least what the overruns call for, and at most what the largest
      overrun count so far called for. */
  lemma LevelBetween(cfg: Config, ticks: seq<Tick>)
    requires WellFormed(cfg)
    ensures var s := Run(cfg, Initial(cfg), ticks);
      && LevelFor(cfg, s.overruns) <= s.level <= LevelFor(cfg, Peak(cfg, Initial(cfg), ticks))
      && (s.mode <==> s.level >= 2)
  {
    EveryRun(cfg, ticks);
    LevelWithinPeak(cfg, Initial(cfg), ticks, 0, Peak(cfg, Initial(cfg), ticks));
  }

  function OverrunTicks(ticks: seq<Tick>): nat {
    if ticks == [] then 0 else (if ticks[0].overran then 1 else 0) + OverrunTicks(ticks[1..])
  }

  lemma {:induction false} PeakAtMostOverruns(cfg: Config, s: State, ticks: seq<Tick>)
    requires WellFormed(cfg) && Inv(cfg, s)
    ensures Peak(cfg, s, ticks) <= s.overruns + OverrunTicks(ticks)
    decreases |ticks|
  {
    if ticks != [] {
      StepKeepsInv(cfg, s, ticks[0]);
      LevelMoves(cfg, s, ticks[0]);
      PeakAtMostOverruns(cfg, Step(cfg, s, ticks[0]), ticks[1..]);
    }
  }

  /** Fewer overruns than the threshold never leave level 0 or set the mode. */
  lemma FewOverrunsStayCalm(cfg: Config, ticks: seq<Tick>)
    requires WellFormed(cfg)
    requires Peak(cfg, Initial(cfg), ticks) < ThresholdOf(cfg) || OverrunTicks(ticks) < ThresholdOf(cfg)
    ensures Run(cfg, Initial(cfg), ticks).level == 0 && !Run(cfg, Initial(cfg), ticks).mode
  {
    LevelBetween(cfg, ticks);
    PeakAtMostOverruns(cfg, Initial(cfg), ticks);
    LevelForMono(cfg, 0, Peak(cfg, Initial(cfg), ticks));
  }

  lemma {:induction false} OverrunsPile(cfg: Config, s: State, ticks: seq<Tick>)
    requires WellFormed(cfg) && Inv(cfg, s) && forall i | 0 <= i < |ticks| :: ticks[i].overran
    ensures Run(cfg, s, ticks).overruns == s.overruns + |ticks|
    ensures Peak(cfg, s, ticks) == s.overruns + |ticks|
    decreases |ticks|
  {
    if ticks != [] {
      StepKeepsInv(cfg, s, ticks[0]);
      LevelMoves(cfg, s, ticks[0]);
      OverrunsPile(cfg, Step(cfg, s, ticks[0]), ticks[1..]);
    }
  }

  /** `n` overruns in a row from the start lead to exactly the level they call for. */
  lemma OverrunsSetLevel(cfg: Config, ticks: seq<Tick>)
    requires WellFormed(cfg) && forall i | 0 <= i < |ticks| :: ticks[i].overran
    ensures Run(cfg, Initial(cfg), ticks).level == LevelFor(cfg, |ticks|)
  {
    OverrunsPile(cfg, Initial(cfg), ticks);
    LevelBetween(cfg, ticks);
  }

  /** The ticks before the stable count can be at a positive multiple of five. */
  function Wait(stable: int): (w: nat)
    ensures w <= 5
  {
    if stable <= 0 then 5 else (5 - stable % 5) % 5
  }

  /** How often the level can fall in `n` ticks. */
  function Falls(wait: nat, n: nat): nat {
    if n <= wait then 0 else (n - wait + 4) / 5
  }

  lemma WaitStep(stable: int)
    requires 0 <= stable
    ensures Wait(stable) == 0 <==> 0 < stable && stable % 5 == 0
    ensures 0 < Wait(stable) ==> Wait(stable + 1) == Wait(stable) - 1
    ensures Wait(stable) == 0 ==> Wait(stable + 1) == 4
  {
  }

  lemma FallsMono(w: nat, w': nat, n: nat)
    requires w <= w'
    ensures Falls(w', n) <= Falls(w, n)
  {
  }

  /** Falling takes its time: after a fall at least five ticks pass before the next. */
  lemma {:induction false} LevelFallsSlowly(cfg: Config, s: State, ticks: seq<Tick>)
    requires WellFormed(cfg) && Inv(cfg, s) && 0 < s.tickCount
    ensures s.level - Run(cfg, s, ticks).level <= Falls(Wait(s.stable), |ticks|)
    decreases |ticks|
  {
    if ticks != [] {
      var s' := Step(cfg, s, ticks[0]);
      StepKeepsInv(cfg, s, ticks[0]);
      LevelMoves(cfg, s, ticks[0]);
      StableMoves(cfg, s, ticks[0]);
      LevelFallsSlowly(cfg, s', ticks[1..]);
      WaitStep(s.stable);
      FallsMono(if Wait(s.stable) == 0 then 4 else Wait(s.stable) - 1, Wait(s'.stable), |ticks| - 1);
    }
  }

  lemma StableMoves(cfg: Config, s: State, t: Tick)
    requires 0 < s.tickCount
    ensures Counted(s, t).stable == s.stable && 0 < Step(cfg, s, t).tickCount
    ensures Step(cfg, s, t).stable == s.stable + 1 || Step(cfg, s, t).stable == 0
  {
  }

  // ---------------------------------------------------------------------------------------
  // How the interval moves
  // ---------------------------------------------------------------------------------------

  /** The forecast may stretch the interval: at nominal, without overruns, services or a warm-up. */
  predicate ForecastCounts(cfg: Config, s: State, t: Tick) {
    && t.forecastHigh && !t.hasServices && s.interval == cfg.nominal
    && !t.overran && s.overruns <= 1 && Counted(s, t).tickCount > 10
  }

  /** One tick: two overruns in a row stretch the interval by the full step, else a forecast that counts
      by the soft step; otherwise it shrinks towards nominal, by the step and no faster. */
  lemma IntervalMoves(cfg: Config, s: State, t: Tick)
    requires WellFormed(cfg) && Inv(cfg, s) && MinOf(cfg) <= cfg.nominal
    ensures var twice := (t.overran && s.overruns >= 1) || (!t.overran && s.overruns >= 3);
      var after, excess := Step(cfg, s, t).interval, (s.interval - cfg.nominal) as real / StepOf(cfg);
      if twice then s.interval <= after == Stretched(cfg, s.interval, StepOf(cfg))
      else if ForecastCounts(cfg, s, t) then s.interval <= after == Stretched(cfg, s.interval, cfg.softFactor)
      else if s.interval == cfg.nominal then after == s.interval
      else after <= s.interval && excess - 1.0 < (after - cfg.nominal) as real <= excess
  {
    TickKeepsInv(cfg, s, t);
    StretchedInRange(cfg, s.interval, StepOf(cfg));
    StretchedInRange(cfg, s.interval, cfg.softFactor);
    ShrunkInRange(s.interval - cfg.nominal, StepOf(cfg));
  }

  /** The total counts every overrunning tick. */
  lemma {:induction false} TotalCountsOverruns(cfg: Config, s: State, ticks: seq<Tick>)
    ensures Run(cfg, s, ticks).totalOverruns == s.totalOverruns + OverrunTicks(ticks)
    decreases |ticks|
  {
    if ticks != [] {
      TotalCountsOverruns(cfg, Step(cfg, s, ticks[0]), ticks[1..]);
    }
  }
}
