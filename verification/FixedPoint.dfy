/** The utilisation solver `ComputeFixedPointEquilibrium` (internal/modelling/network.go): an
    in-place Gauss-Seidel iteration with damping over a map visited in arbitrary order. */
module FixedPoint {
  import opened Collapse
  import opened GaussSeidel
  import opened Reals

  type Service = string

  datatype Window = Window(rate: real, latencyMs: real, activeConns: real, queueDepth: real)

  datatype Edge = Edge(source: Service, target: Service, weight: real)

  /** What the iteration reads: request rate and service rate of every service, and the edges. */
  datatype Network = Network(rate: map<Service, real>, mu: map<Service, real>, edges: seq<Edge>)

  const EPSILON := 0.000001
  const MAX_ITER := 50
  const RHO_CAP := 1.5

  /** `math.Round`: halves go away from zero. */
  function Round(x: real): real {
    if x >= 0.0 then (x + 0.5).Floor as real else -((0.5 - x).Floor as real)
  }

  /** It is a nearest whole number, in a tie the one further from zero. */
  lemma RoundIsNearest(x: real)
    ensures Round(x) == Round(x).Floor as real && Abs(Round(x) - x) <= 0.5
    ensures Abs(Round(x) - x) == 0.5 ==> Abs(Round(x)) == Abs(x) + 0.5
  {
    var k := if x >= 0.0 then (x + 0.5).Floor else -(0.5 - x).Floor;
    assert Round(x) == k as real;
    FloorOfWhole(k);
    if x >= 0.0 {
      FloorBelow(x + 0.5);
    } else {
      FloorBelow(0.5 - x);
    }
  }

  lemma FloorOfWhole(k: int)
    ensures (k as real).Floor == k
  {
  }

  lemma FloorBelow(x: real)
    ensures x.Floor as real <= x < x.Floor as real + 1.0
  {
  }

  predicate Observed(w: Window) {
    w.rate > 0.0 && w.latencyMs > 0.0 && w.activeConns > 0.0
  }

  function ServiceRate(w: Window): (mu: real)
    ensures mu > 0.0
  {
    if Observed(w) then
      var c := Max(Round(w.activeConns), 1.0);
      var svcTimeMs := w.latencyMs * (1.0 - Min(w.queueDepth / (w.activeConns + 1.0), 0.8) * 0.5);
      c * 1000.0 / Max(svcTimeMs, 0.001)
    else 1.0
  }

  /** One connection serves a request in the observed latency, less up to 40% for what it spent
      queued: so a service handles at least its connections per latency, and at most 5/3 of that. */
  lemma ServiceRateBounds(w: Window)
    requires Observed(w) && 0.0 <= w.queueDepth && 0.6 * w.latencyMs >= 0.001
    ensures var c := 1000.0 * Max(Round(w.activeConns), 1.0);
      && c <= Times(ServiceRate(w), w.latencyMs) && 0.6 * Times(ServiceRate(w), w.latencyMs) <= c
      && (w.queueDepth == 0.0 ==> Times(ServiceRate(w), w.latencyMs) == c)
  {
    var share := Min(w.queueDepth / (w.activeConns + 1.0), 0.8);
    NonNegativeQuotient(w.queueDepth, w.activeConns + 1.0);
    QueueShare(ServiceRate(w), w.latencyMs, share);
    var svc := w.latencyMs * (1.0 - share * 0.5);
    assert svc >= 0.6 * w.latencyMs by { MulMono(0.6, 1.0 - share * 0.5, w.latencyMs); }
    QuotientTimes(Max(Round(w.activeConns), 1.0) * 1000.0, svc);
  }

  lemma NonNegativeQuotient(x: real, y: real)
    requires 0.0 <= x && 0.0 < y
    ensures 0.0 <= x / y && (x == 0.0 ==> x / y == 0.0)
  {
  }

  lemma QuotientTimes(x: real, y: real)
    requires 0.0 < y
    ensures Times(x / y, y) == x
  {
  }

  lemma QueueShare(mu: real, latency: real, share: real)
    requires 0.0 < mu && 0.0 < latency && 0.0 <= share <= 0.8
    ensures 0.6 * Times(mu, latency) <= Times(mu, latency * (1.0 - share * 0.5)) <= Times(mu, latency)
    ensures share == 0.0 ==> Times(mu, latency * (1.0 - share * 0.5)) == Times(mu, latency)
  {
    var svc := latency * (1.0 - share * 0.5);
    MulMono(0.6, 1.0 - share * 0.5, latency);
    MulMono(1.0 - share * 0.5, 1.0, latency);
    MulMono(0.6 * latency, svc, mu);
    MulMono(svc, latency, mu);
    assert mu * (0.6 * latency) == 0.6 * (mu * latency);
  }

  function InitialRho(w: Window): (rho: real)
    ensures 0.0 <= rho <= RHO_CAP
  {
    if Observed(w) then Min(w.rate / ServiceRate(w), RHO_CAP) else 0.0
  }

  function Initial(windows: map<Service, Window>): Vector {
    map id <- windows :: InitialRho(windows[id])
  }

  function NetworkOf(windows: map<Service, Window>, edges: seq<Edge>): (n: Network)
    ensures WellFormed(n)
  {
    Network(map id <- windows :: windows[id].rate, map id <- windows :: ServiceRate(windows[id]), edges)
  }

  predicate WellFormed(n: Network) {
    n.mu.Keys == n.rate.Keys && forall id <- n.mu :: n.mu[id] > 0.0
  }

  predicate Feeds(n: Network, e: Edge, id: Service) {
    e.target == id && e.weight > 0.0 && e.source in n.rate
  }

  function Injection(weight: real, rate: real, rho: real): real {
    weight * rate * Min(rho, 1.0) * 0.10
  }

  function Injected(n: Network, rho: Vector, id: Service, e: Edge): real
    requires rho.Keys == n.rate.Keys
  {
    if Feeds(n, e, id) then Injection(e.weight, n.rate[e.source], rho[e.source]) else 0.0
  }

  /** The load of `id` after the first `k` edges have been added to its own rate. */
  function Load(n: Network, rho: Vector, id: Service, k: nat): real
    requires rho.Keys == n.rate.Keys && id in n.rate && k <= |n.edges|
  {
    if k == 0 then n.rate[id]
    else Load(n, rho, id, k - 1) + Injected(n, rho, id, n.edges[k - 1])
  }

  function Clamp(x: real): real {
    Max(0.0, Min(x, RHO_CAP))
  }

  function Utilisation(load: real, mu: real): real
    requires mu > 0.0
  {
    Clamp(load / mu)
  }

  /** The clamped utilisation the equations give for `id`. */
  function Demand(n: Network): Update
    requires WellFormed(n)
  {
    (rho: Vector, id: Service) =>
      if rho.Keys == n.rate.Keys && id in n.rate
      then Utilisation(Load(n, rho, id, |n.edges|), n.mu[id])
      else 0.0
  }

  // ---------------------------------------------------------------------------------------
  // The gain of the network is a Lipschitz constant of its equations
  // ---------------------------------------------------------------------------------------

  function Strength(weight: real, rate: real): (g: real)
    requires weight > 0.0
    ensures 0.0 <= g
  {
    weight * Abs(rate) * 0.10
  }

  /** The summed strength of the edges into `id` among the first `k`. */
  function GainSum(n: Network, id: Service, k: nat): (g: real)
    requires k <= |n.edges|
    ensures 0.0 <= g
  {
    if k == 0 then 0.0
    else
      var e := n.edges[k - 1];
      GainSum(n, id, k - 1) + if Feeds(n, e, id) then Strength(e.weight, n.rate[e.source]) else 0.0
  }

  /** Every service's summed edge strength, relative to its service rate, is at most `gain`. */
  predicate GainAtMost(n: Network, gain: real)
    requires WellFormed(n)
  {
    0.0 <= gain && forall id <- n.rate :: GainSum(n, id, |n.edges|) <= Times(gain, n.mu[id])
  }

  lemma InjectionGap(w: real, r: real, x: real, y: real, d: real)
    requires 0.0 < w && Abs(x - y) <= d
    ensures Abs(Injection(w, r, x) - Injection(w, r, y)) <= Times(Strength(w, r), d)
  {
    var u, v := Min(x, 1.0) * 0.10, Min(y, 1.0) * 0.10;
    ScaledGap(w, r, u, v, 0.10 * d);
    assert w * r * u == Injection(w, r, x);
    assert w * r * v == Injection(w, r, y);
    assert w * Abs(r) * (0.10 * d) == Times(Strength(w, r), d);
  }

  lemma TimesSum(g: real, h: real, d: real)
    ensures Times(g + h, d) == Times(g, d) + Times(h, d)
    ensures Times(0.0, d) == 0.0
  {
  }

  lemma {:induction false} LoadGap(n: Network, a: Vector, b: Vector, id: Service, k: nat, d: real)
    requires Near(n.rate.Keys, a, b, d) && 0.0 <= d && id in n.rate && k <= |n.edges|
    ensures Abs(Load(n, a, id, k) - Load(n, b, id, k)) <= Times(GainSum(n, id, k), d)
  {
    if k == 0 {
      TimesSum(0.0, 0.0, d);
    } else {
      var e := n.edges[k - 1];
      LoadGap(n, a, b, id, k - 1, d);
      if Feeds(n, e, id) {
        InjectionGap(e.weight, n.rate[e.source], a[e.source], b[e.source], d);
        TimesSum(GainSum(n, id, k - 1), Strength(e.weight, n.rate[e.source]), d);
      }
    }
  }

  lemma UtilisationGap(x: real, y: real, mu: real, g: real, gain: real, d: real)
    requires 0.0 < mu && 0.0 <= d && Abs(x - y) <= Times(g, d) && g <= Times(gain, mu)
    ensures Abs(Utilisation(x, mu) - Utilisation(y, mu)) <= Times(gain, d)
  {
    GapOver(x, y, g, gain, mu, d);
  }

  lemma GainIsLipschitz(n: Network, gain: real)
    requires WellFormed(n) && GainAtMost(n, gain)
    ensures Lipschitz(n.rate.Keys, Demand(n), gain)
  {
    var f := Demand(n);
    forall d, a, b, id | 0.0 <= d && Near(n.rate.Keys, a, b, d) && id in n.rate
      ensures Abs(f(a, id) - f(b, id)) <= Times(gain, d)
    {
      DemandGap(n, gain, a, b, d, id);
    }
  }

  lemma DemandGap(n: Network, gain: real, a: Vector, b: Vector, d: real, id: Key)
    requires WellFormed(n) && GainAtMost(n, gain)
    requires 0.0 <= d && Near(n.rate.Keys, a, b, d) && id in n.rate
    ensures Abs(Demand(n)(a, id) - Demand(n)(b, id)) <= Times(gain, d)
  {
    LoadGap(n, a, b, id, |n.edges|, d);
    UtilisationGap(Load(n, a, id, |n.edges|), Load(n, b, id, |n.edges|), n.mu[id],
                   GainSum(n, id, |n.edges|), gain, d);
  }

  /** One sweep over the network, in any map order, contracts distances by Kappa(gain). */
  lemma NetworkSweepContracts(n: Network, gain: real, a: Vector, b: Vector, d: real, order: seq<Key>)
    requires WellFormed(n) && GainAtMost(n, gain) && gain < 1.0
    requires Near(n.rate.Keys, a, b, d) && 0.0 <= d && IsOrder(n.rate.Keys, order)
    ensures Near(n.rate.Keys, Sweep(Demand(n), a, order), Sweep(Demand(n), b, order), Times(Kappa(gain), d))
    ensures 0.45 <= Kappa(gain) < 1.0
  {
    GainIsLipschitz(n, gain);
    SweepContracts(n.rate.Keys, Demand(n), gain, a, b, d, order);
  }

  /** ... so the network has at most one equilibrium. */
  lemma AtMostOneEquilibrium(n: Network, gain: real, e: Vector, e': Vector)
    requires WellFormed(n) && GainAtMost(n, gain) && gain < 1.0
    requires IsEquilibrium(n.rate.Keys, Demand(n), e) && IsEquilibrium(n.rate.Keys, Demand(n), e')
    ensures e == e'
  {
    GainIsLipschitz(n, gain);
    EquilibriumUnique(n.rate.Keys, Demand(n), gain, e, e');
  }

  // ---------------------------------------------------------------------------------------
  // The solver
  // ---------------------------------------------------------------------------------------

  datatype Result = Result(
    rho: Vector,
    iterations: nat,
    converged: bool,
    convergenceRate: real,
    stabilityMargin: real,
    collapse: real
  )

  method LoadOf(n: Network, rho: Vector, id: Service) returns (lambda: real)
    requires rho.Keys == n.rate.Keys && id in n.rate
    ensures lambda == Load(n, rho, id, |n.edges|)
  {
    lambda := n.rate[id];
    for k := 0 to |n.edges|
      invariant lambda == Load(n, rho, id, k)
    {
      var e := n.edges[k];
      if e.target == id && e.weight > 0.0 {
        if e.source in n.rate {
          lambda := lambda + e.weight * n.rate[e.source] * Min(rho[e.source], 1.0) * 0.10;
        }
      }
    }
  }

  method UpdatedRho(n: Network, rho: Vector, id: Service) returns (updated: real)
    requires WellFormed(n) && rho.Keys == n.rate.Keys && id in n.rate
    ensures updated == Damped(rho[id], Demand(n)(rho, id))
  {
    var lambda := LoadOf(n, rho, id);
    var newRho := Max(0.0, Min(lambda / n.mu[id], RHO_CAP));
    updated := (1.0 - 0.55) * rho[id] + 0.55 * newRho;
  }

  lemma {:induction false} SweepSnoc(f: Update, v: Vector, order: seq<Key>, id: Key)
    requires (forall k <- order :: k in v) && id in v
    ensures var w := Sweep(f, v, order);
      Sweep(f, v, order + [id]) == w[id := Damped(w[id], f(w, id))]
    decreases |order|
  {
    if order == [] {
      assert Sweep(f, v, [id]) == Sweep(f, v[id := Damped(v[id], f(v, id))], []);
    } else {
      assert (order + [id])[1..] == order[1..] + [id];
      SweepSnoc(f, v[order[0] := Damped(v[order[0]], f(v, order[0]))], order[1..], id);
    }
  }

  /** Where the range loop over `windows` stands: `order` is done, `todo` is left. */
  ghost predicate Sweeping(ids: set<Key>, f: Update, start: Vector, rho: Vector, maxDelta: real,
                           order: seq<Key>, todo: set<Key>) {
    && start.Keys == ids && todo <= ids
    && Distinct(order) && (forall id :: id in order <==> id in ids && id !in todo)
    && rho == Sweep(f, start, order)
    && (forall id <- todo :: rho[id] == start[id])
    && IsResidual(ids, start, rho, maxDelta)
  }

  lemma SweepingStep(ids: set<Key>, f: Update, start: Vector, rho: Vector, maxDelta: real,
                     order: seq<Key>, todo: set<Key>, id: Key)
    requires Sweeping(ids, f, start, rho, maxDelta, order, todo) && id in todo
    ensures var x := Damped(rho[id], f(rho, id));
      Sweeping(ids, f, start, rho[id := x], Max(maxDelta, Abs(x - rho[id])), order + [id], todo - {id})
  {
    var x := Damped(rho[id], f(rho, id));
    ResidualGrows(ids, start, rho, maxDelta, id, x);
    SweepSnoc(f, start, order, id);
    DistinctSnoc(order, id);
  }

  /** One round of `for id := range windows`. The service rates are positive, so the guard
      against a non-positive one never skips a service. */
  method SweepInPlace(n: Network, start: Vector) returns (rho: Vector, maxDelta: real, ghost order: seq<Service>)
    requires WellFormed(n) && start.Keys == n.rate.Keys
    ensures IsOrder(n.rate.Keys, order) && rho == Sweep(Demand(n), start, order)
    ensures IsResidual(n.rate.Keys, start, rho, maxDelta)
  {
    rho, maxDelta, order := start, 0.0, [];
    var todo := n.rate.Keys;
    while todo != {}
      invariant Sweeping(n.rate.Keys, Demand(n), start, rho, maxDelta, order, todo)
      decreases todo
    {
      var id :| id in todo;
      var updated := UpdatedRho(n, rho, id);
      SweepingStep(n.rate.Keys, Demand(n), start, rho, maxDelta, order, todo, id);
      var delta := Abs(updated - rho[id]);
      if delta > maxDelta {
        maxDelta := delta;
      }
      rho, order, todo := rho[id := updated], order + [id], todo - {id};
    }
  }

  // ---------------------------------------------------------------------------------------
  // What every run of the solver guarantees
  // ---------------------------------------------------------------------------------------

  lemma DemandInRange(n: Network)
    requires WellFormed(n)
    ensures forall v, id :: 0.0 <= Demand(n)(v, id) <= RHO_CAP
  {
  }

  /** The state between two sweeps: `rho` is the start vector after the sweeps of `orders`, and
      `residual` is how far the last of them moved it. */
  ghost predicate Solving(n: Network, start: Vector, orders: seq<seq<Key>>, rho: Vector, residual: real)
    requires WellFormed(n)
  {
    && start.Keys == n.rate.Keys && InRange(start, RHO_CAP)
    && AllOrders(n.rate.Keys, orders)
    && rho == Iterate(Demand(n), start, orders)
    && (orders != [] ==>
          IsResidual(n.rate.Keys, Iterate(Demand(n), start, orders[..|orders| - 1]), rho, residual))
  }

  /** Residuals shrink below gain one half, and at least geometrically below 0.3. */
  ghost predicate Shrinking(n: Network, orders: seq<seq<Key>>, residual: real)
    requires WellFormed(n)
  {
    orders != [] && GainAtMost(n, 0.3) ==> residual <= Times(Pow(0.74, |orders| - 1), RHO_CAP)
  }

  lemma FirstResidual(n: Network, start: Vector, order: seq<Key>, rho: Vector, residual: real)
    requires WellFormed(n) && Solving(n, start, [order], rho, residual)
    ensures residual <= RHO_CAP
  {
    var f := Demand(n);
    DemandInRange(n);
    assert [order][..0] == [];
    IterateInRange(f, start, [order], RHO_CAP);
    assert Near(n.rate.Keys, start, rho, RHO_CAP);
  }

  lemma NextResidual(n: Network, gain: real, start: Vector, orders: seq<seq<Key>>, rho: Vector, residual: real,
                     order: seq<Key>, rho': Vector, residual': real)
    requires WellFormed(n) && Solving(n, start, orders, rho, residual) && orders != []
    requires IsOrder(n.rate.Keys, order) && rho' == Sweep(Demand(n), rho, order)
    requires IsResidual(n.rate.Keys, rho, rho', residual')
    requires GainAtMost(n, gain) && gain < 0.5
    ensures residual > 0.0 ==> residual' < residual
    ensures gain <= 0.3 ==> residual' <= 0.74 * residual
  {
    GainIsLipschitz(n, gain);
    ResidualFalls(n.rate.Keys, Demand(n), gain, Iterate(Demand(n), start, orders[..|orders| - 1]),
                  orders[|orders| - 1], order, residual, residual');
  }

  lemma SolvingStep(n: Network, start: Vector, orders: seq<seq<Key>>, rho: Vector, residual: real,
                    order: seq<Key>, rho': Vector, residual': real)
    requires WellFormed(n) && Solving(n, start, orders, rho, residual) && Shrinking(n, orders, residual)
    requires IsOrder(n.rate.Keys, order) && rho' == Sweep(Demand(n), rho, order)
    requires IsResidual(n.rate.Keys, rho, rho', residual')
    ensures Solving(n, start, orders + [order], rho', residual')
    ensures Shrinking(n, orders + [order], residual')
  {
    var all := orders + [order];
    assert all[..|all| - 1] == orders;
    if orders == [] {
      assert all == [order];
      FirstResidual(n, start, order, rho', residual');
      assert Times(Pow(0.74, 0), RHO_CAP) == RHO_CAP;
    } else if GainAtMost(n, 0.3) {
      NextResidual(n, 0.3, start, orders, rho, residual, order, rho', residual');
      PowTimesStep(0.74, |orders| - 1, RHO_CAP);
    }
  }

  lemma PowTimesStep(x: real, k: nat, c: real)
    ensures x * Times(Pow(x, k), c) == Times(Pow(x, k + 1), c)
  {
  }

  /** 49 factors of 0.74 bring 1.5 below the stopping threshold. */
  lemma FiftySweepsSuffice()
    ensures Times(Pow(0.74, 49), RHO_CAP) < EPSILON
  {
    PowAdd(0.74, 8, 8);
    PowAdd(0.74, 16, 16);
    PowAdd(0.74, 32, 16);
    PowAdd(0.74, 48, 1);
    var p8 := Pow(0.74, 8);
    assert 0.0 <= p8 <= 0.09;
    var p16 := Pow(0.74, 16);
    assert 0.0 <= p16 <= 0.0081 by { MulMono(p8, 0.09, p8); }
    var p32 := Pow(0.74, 32);
    assert 0.0 <= p32 <= 0.0000657 by { MulMono(p16, 0.0081, p16); }
    var p48 := Pow(0.74, 48);
    assert p48 <= 0.0000657 * 0.0081 by { MulMono(p32, 0.0000657, p16); }
    assert Pow(0.74, 1) == 0.74;
  }

  /** The rate estimate of one more sweep, as the code smooths it. */
  function Smoothed(sweeps: nat, estimate: real, residual: real, previous: real): real {
    if sweeps > 0 && previous > 0.000000000001 then
      if sweeps == 1 then residual / previous
      else 0.7 * estimate + 0.3 * (residual / previous)
    else estimate
  }

  lemma RateBelowOne(sweeps: nat, estimate: real, residual: real, previous: real)
    requires 0.0 <= estimate && 0.0 <= residual
    ensures 0.0 <= Smoothed(sweeps, estimate, residual, previous)
    ensures 0 < sweeps && 0.0 < residual && EPSILON <= previous ==>
        0.0 < Smoothed(sweeps, estimate, residual, previous)
    ensures estimate < 1.0 && residual < previous ==> Smoothed(sweeps, estimate, residual, previous) < 1.0
  {
    if previous > 0.000000000001 {
      var q := residual / previous;
      assert q * previous == residual;
      assert 0.0 <= q;
      assert 0.0 < residual ==> 0.0 < q;
      if residual < previous && 1.0 <= q {
        MulMono(1.0, q, previous);
      }
    }
  }

  /** The estimate after sweeps with these residuals. */
  function RateOf(residuals: seq<real>): real {
    if residuals == [] then 0.0
    else
      var last := |residuals| - 1;
      Smoothed(last, RateOf(residuals[..last]), residuals[last], if last == 0 then 0.0 else residuals[last - 1])
  }

  /** Residuals that shrink by the same factor from sweep to sweep give exactly that factor. */
  lemma {:induction false} GeometricRate(residuals: seq<real>, q: real)
    requires 2 <= |residuals| && forall k | 0 <= k < |residuals| :: residuals[k] > 0.000000000001
    requires forall k | 0 < k < |residuals| :: residuals[k] == Times(q, residuals[k - 1])
    ensures RateOf(residuals) == q
  {
    var last := |residuals| - 1;
    FactorIs(q, residuals[last - 1]);
    if last > 1 {
      GeometricRate(residuals[..last], q);
    }
  }

  lemma FactorIs(q: real, x: real)
    requires 0.0 < x
    ensures Times(q, x) / x == q
  {
  }

  /** What is reported for an estimate: without one, 0.5 or 1 depending on convergence. */
  function Reported(rate: real, converged: bool): real {
    if rate <= 0.0 then if converged then 0.5 else 1.0 else rate
  }

  /** `residuals` lists exactly how far each of the sweeps moved the vector. */
  ghost predicate AreResiduals(f: Update, start: Vector, orders: seq<seq<Key>>, residuals: seq<real>)
    requires AllOrders(start.Keys, orders)
    decreases |orders|
  {
    && |residuals| == |orders|
    && (orders != [] ==>
          var last := |orders| - 1;
          && AreResiduals(f, start, orders[..last], residuals[..last])
          && IsResidual(start.Keys, Iterate(f, start, orders[..last]), Iterate(f, start, orders), residuals[last]))
  }

  /** The residuals so far, the last of them, and the estimate made from them. */
  ghost predicate Measured(f: Update, start: Vector, orders: seq<seq<Key>>, residuals: seq<real>, last: real,
                           rate: real)
    requires AllOrders(start.Keys, orders)
  {
    && AreResiduals(f, start, orders, residuals) && rate == RateOf(residuals)
    && last == if residuals == [] then 0.0 else residuals[|residuals| - 1]
  }

  lemma OrdersSnoc(f: Update, start: Vector, orders: seq<seq<Key>>, order: seq<Key>)
    requires AllOrders(start.Keys, orders) && IsOrder(start.Keys, order)
    ensures AllOrders(start.Keys, orders + [order])
    ensures Iterate(f, start, orders + [order]) == Sweep(f, Iterate(f, start, orders), order)
  {
    assert (orders + [order])[..|orders|] == orders;
  }

  lemma ResidualsStep(f: Update, start: Vector, orders: seq<seq<Key>>, residuals: seq<real>, rho: Vector,
                      order: seq<Key>, rho': Vector, residual: real)
    requires AllOrders(start.Keys, orders) && AreResiduals(f, start, orders, residuals)
    requires AllOrders(start.Keys, orders + [order])
    requires rho == Iterate(f, start, orders) && rho' == Iterate(f, start, orders + [order])
    requires IsResidual(start.Keys, rho, rho', residual)
    ensures AreResiduals(f, start, orders + [order], residuals + [residual])
  {
    assert (residuals + [residual])[..|residuals|] == residuals && (orders + [order])[..|orders|] == orders;
  }

  lemma MeasuredStep(f: Update, start: Vector, orders: seq<seq<Key>>, residuals: seq<real>, last: real, rate: real,
                     rho: Vector, order: seq<Key>, rho': Vector, residual: real)
    requires AllOrders(start.Keys, orders) && IsOrder(start.Keys, order)
    requires Measured(f, start, orders, residuals, last, rate)
    requires rho == Iterate(f, start, orders) && rho' == Sweep(f, rho, order)
    requires IsResidual(start.Keys, rho, rho', residual)
    ensures AllOrders(start.Keys, orders + [order])
    ensures Measured(f, start, orders + [order], residuals + [residual], residual,
                     Smoothed(|orders|, rate, residual, last)) == true
  {
    OrdersSnoc(f, start, orders, order);
    ResidualsStep(f, start, orders, residuals, rho, order, rho', residual);
    RateStep(residuals, residual);
  }

  lemma RateStep(residuals: seq<real>, residual: real)
    ensures var previous := if residuals == [] then 0.0 else residuals[|residuals| - 1];
      RateOf(residuals + [residual]) == Smoothed(|residuals|, RateOf(residuals), residual, previous)
  {
    assert (residuals + [residual])[..|residuals|] == residuals;
  }

  /** Near every equilibrium, by the number of sweeps and, after convergence, by the threshold. */
  ghost predicate NearEquilibria(n: Network, rho: Vector, sweeps: nat, converged: bool)
    requires WellFormed(n)
  {
    forall gain, e | GainAtMost(n, gain) && gain < 1.0 && IsEquilibrium(n.rate.Keys, Demand(n), e) ::
      NearOne(n, gain, e, rho, sweeps, converged)
  }

  ghost predicate NearOne(n: Network, gain: real, e: Vector, rho: Vector, sweeps: nat, converged: bool)
    requires gain < 1.0
  {
    && Near(n.rate.Keys, rho, e, Times(Pow(Kappa(gain), sweeps), RHO_CAP))
    && (converged ==> Near(n.rate.Keys, rho, e, StopRadius(gain, EPSILON)))
  }

  lemma ResultNear(n: Network, gain: real, e: Vector, start: Vector, orders: seq<seq<Key>>, rho: Vector,
                   residual: real)
    requires WellFormed(n) && Solving(n, start, orders, rho, residual) && orders != []
    requires GainAtMost(n, gain) && gain < 1.0 && IsEquilibrium(n.rate.Keys, Demand(n), e)
    ensures NearOne(n, gain, e, rho, |orders|, residual < EPSILON)
  {
    var ids, f := n.rate.Keys, Demand(n);
    GainIsLipschitz(n, gain);
    DemandInRange(n);
    assert Near(ids, start, e, RHO_CAP);
    IterateContracts(ids, f, gain, start, e, RHO_CAP, orders);
    if residual < EPSILON {
      StoppedNearEquilibrium(ids, f, gain, Iterate(f, start, orders[..|orders| - 1]), orders[|orders| - 1],
                             e, EPSILON);
    }
  }

  lemma ResultNearEquilibria(n: Network, start: Vector, orders: seq<seq<Key>>, rho: Vector, residual: real)
    requires WellFormed(n) && Solving(n, start, orders, rho, residual) && orders != []
    ensures NearEquilibria(n, rho, |orders|, residual < EPSILON)
  {
    forall gain, e | GainAtMost(n, gain) && gain < 1.0 && IsEquilibrium(n.rate.Keys, Demand(n), e)
      ensures NearOne(n, gain, e, rho, |orders|, residual < EPSILON)
    {
      ResultNear(n, gain, e, start, orders, rho, residual);
    }
  }

  /** Some gain bound below one half holds. */
  ghost predicate Calm(n: Network)
    requires WellFormed(n)
  {
    exists gain :: gain < 0.5 && GainAtMost(n, gain)
  }

  /** The state between two sweeps, as far as the smoothed rate is concerned. */
  ghost predicate Estimating(calm: bool, sweeps: nat, estimate: real, residual: real) {
    && 0.0 <= estimate && (sweeps <= 1 ==> estimate == 0.0) && (calm ==> estimate < 1.0)
    && (sweeps > 1 && 0.0 < residual ==> 0.0 < estimate)
  }

  lemma EstimatingStep(n: Network, start: Vector, orders: seq<seq<Key>>, rho: Vector, residual: real,
                       order: seq<Key>, rho': Vector, residual': real, estimate: real)
    requires WellFormed(n) && Solving(n, start, orders, rho, residual)
    requires IsOrder(n.rate.Keys, order) && rho' == Sweep(Demand(n), rho, order)
    requires IsResidual(n.rate.Keys, rho, rho', residual')
    requires Estimating(Calm(n), |orders|, estimate, residual) && (orders != [] ==> EPSILON <= residual)
    ensures Estimating(Calm(n), |orders| + 1, Smoothed(|orders|, estimate, residual', residual), residual')
  {
    RateBelowOne(|orders|, estimate, residual', residual);
    if Calm(n) && orders != [] {
      var gain :| gain < 0.5 && GainAtMost(n, gain);
      NextResidual(n, gain, start, orders, rho, residual, order, rho', residual');
    }
  }

  /** The sweeps: until one moves nothing by EPSILON, at most MAX_ITER. */
  method RunSweeps(n: Network, start: Vector)
    returns (rho: Vector, convergedAt: nat, convergenceRate: real, ghost orders: seq<seq<Service>>,
             ghost residual: real, ghost residuals: seq<real>)
    requires WellFormed(n) && start.Keys == n.rate.Keys && InRange(start, RHO_CAP)
    ensures Solving(n, start, orders, rho, residual) && Shrinking(n, orders, residual)
    ensures 0 < |orders| <= MAX_ITER
    ensures residual < EPSILON ==> convergedAt == |orders|
    ensures EPSILON <= residual ==> convergedAt == 0 && |orders| == MAX_ITER
    ensures Estimating(Calm(n), |orders|, convergenceRate, residual)
    ensures Measured(Demand(n), start, orders, residuals, residual, convergenceRate)
  {
    rho, convergedAt, convergenceRate, orders, residual, residuals := start, 0, 0.0, [], 0.0, [];
    var prevDelta, iter := 0.0, 0;
    while iter < MAX_ITER
      invariant 0 <= iter <= MAX_ITER && |orders| == iter && convergedAt == 0 && residual == prevDelta
      invariant Solving(n, start, orders, rho, prevDelta) && Shrinking(n, orders, prevDelta)
      invariant iter > 0 ==> EPSILON <= prevDelta
      invariant Estimating(Calm(n), iter, convergenceRate, residual)
      invariant Measured(Demand(n), start, orders, residuals, residual, convergenceRate)
    {
      var rho', maxDelta, order := SweepInPlace(n, rho);
      EstimatingStep(n, start, orders, rho, prevDelta, order, rho', maxDelta, convergenceRate);
      SolvingStep(n, start, orders, rho, prevDelta, order, rho', maxDelta);
      MeasuredStep(Demand(n), start, orders, residuals, prevDelta, convergenceRate, rho, order, rho', maxDelta);
      convergenceRate := Smoothed(iter, convergenceRate, maxDelta, prevDelta);
      orders, residuals := orders + [order], residuals + [maxDelta];
      rho, prevDelta, residual, iter := rho', maxDelta, maxDelta, iter + 1;
      if maxDelta < EPSILON {
        convergedAt := iter;
        break;
      }
    }
  }

  lemma WrapUp(n: Network, start: Vector, orders: seq<seq<Key>>, rho: Vector, residual: real)
    requires WellFormed(n) && Solving(n, start, orders, rho, residual) && Shrinking(n, orders, residual)
    requires orders != []
    ensures InRange(rho, RHO_CAP) && NearEquilibria(n, rho, |orders|, residual < EPSILON)
    ensures GainAtMost(n, 0.3) && |orders| == MAX_ITER ==> residual < EPSILON
  {
    ResultNearEquilibria(n, start, orders, rho, residual);
    DemandInRange(n);
    IterateInRange(Demand(n), start, orders, RHO_CAP);
    FiftySweepsSuffice();
  }

  /** The last sweep over the network moved nothing by EPSILON or more. */
  ghost predicate Settled(n: Network, rho: Vector)
    requires WellFormed(n)
  {
    exists before, order :: SettledBy(n, before, order, rho)
  }

  predicate SettledBy(n: Network, before: Vector, order: seq<Key>, rho: Vector)
    requires WellFormed(n)
  {
    && before.Keys == n.rate.Keys && IsOrder(n.rate.Keys, order)
    && rho == Sweep(Demand(n), before, order) && Near(n.rate.Keys, before, rho, EPSILON)
  }

  /** The reported rate is the one estimated from the residuals of the sweeps. */
  ghost predicate Rated(n: Network, start: Vector, orders: seq<seq<Key>>, r: Result)
    requires WellFormed(n) && AllOrders(start.Keys, orders)
  {
    && (exists residuals :: AreResiduals(Demand(n), start, orders, residuals)
                         && r.convergenceRate == Reported(RateOf(residuals), r.converged))
    && r.stabilityMargin == 1.0 - r.convergenceRate
  }

  /** What the solver promises about a result reached by the sweeps `orders`. */
  ghost predicate Solved(n: Network, start: Vector, orders: seq<seq<Key>>, sigmoid: real -> real, r: Result)
    requires WellFormed(n) && start.Keys == n.rate.Keys
  {
    && AllOrders(n.rate.Keys, orders) && 0 < |orders| <= MAX_ITER
    && r.rho == Iterate(Demand(n), start, orders) && InRange(r.rho, RHO_CAP)
    && r.converged == (r.iterations > 0)
    && (r.converged ==> r.iterations == |orders| && Settled(n, r.rho)) && (!r.converged ==> |orders| == MAX_ITER)
    && NearEquilibria(n, r.rho, |orders|, r.converged)
    && (GainAtMost(n, 0.3) ==> r.converged)
    && (Calm(n) ==> r.stabilityMargin > 0.0)
    && Rated(n, start, orders, r)
    && IsCollapse(sigmoid, r.rho, r.collapse) && 0.0 <= r.collapse <= 1.0
  }

  lemma SettledAtEnd(n: Network, start: Vector, orders: seq<seq<Key>>, rho: Vector, residual: real)
    requires WellFormed(n) && Solving(n, start, orders, rho, residual) && orders != [] && residual < EPSILON
    ensures Settled(n, rho)
  {
    var before, order := Iterate(Demand(n), start, orders[..|orders| - 1]), orders[|orders| - 1];
    NearWider(n.rate.Keys, before, rho, residual, EPSILON);
    assert SettledBy(n, before, order, rho);
  }

  /** The last lines of the solver. */
  method Conclude(n: Network, rho: Vector, convergedAt: nat, rate: real, sigmoid: real -> real, ghost start: Vector,
                  ghost orders: seq<seq<Key>>, ghost residual: real, ghost residuals: seq<real>) returns (r: Result)
    requires WellFormed(n) && Solving(n, start, orders, rho, residual) && Shrinking(n, orders, residual)
    requires 0 < |orders| <= MAX_ITER && Estimating(Calm(n), |orders|, rate, residual)
    requires Measured(Demand(n), start, orders, residuals, residual, rate) && IsSigmoid(sigmoid)
    requires residual < EPSILON ==> convergedAt == |orders|
    requires EPSILON <= residual ==> convergedAt == 0 && |orders| == MAX_ITER
    ensures Solved(n, start, orders, sigmoid, r)
  {
    WrapUp(n, start, orders, rho, residual);
    if residual < EPSILON {
      SettledAtEnd(n, start, orders, rho, residual);
    }
    var collapse := SystemicCollapse(sigmoid, rho);
    var convergenceRate := rate;
    if convergenceRate <= 0.0 {
      convergenceRate := if convergedAt > 0 then 0.5 else 1.0;
    }
    r := Result(rho, convergedAt, convergedAt > 0, convergenceRate, 1.0 - convergenceRate, collapse);
    assert AreResiduals(Demand(n), start, orders, residuals);
  }

  /** The solver. Whatever order each sweep visits the map in: the result is in range and near
      every equilibrium, up to gain 0.3 it converges, and below gain one half the reported
      stability margin is positive. */
  method Solve(windows: map<Service, Window>, edges: seq<Edge>, sigmoid: real -> real)
    returns (r: Result, ghost orders: seq<seq<Service>>)
    requires IsSigmoid(sigmoid)
    ensures windows == map[] ==> r == Result(map[], 0, false, 0.0, 0.0, 0.0)
    ensures windows != map[] ==> Solved(NetworkOf(windows, edges), Initial(windows), orders, sigmoid, r)
  {
    if |windows| == 0 {
      r, orders := Result(map[], 0, false, 0.0, 0.0, 0.0), [];
      return;
    }
    var n := NetworkOf(windows, edges);
    var rho, convergedAt, convergenceRate, sweeps, residual, residuals := RunSweeps(n, Initial(windows));
    orders := sweeps;
    r := Conclude(n, rho, convergedAt, convergenceRate, sigmoid, Initial(windows), orders, residual, residuals);
  }

  lemma SettledSolves(n: Network, gain: real, rho: Vector)
    requires WellFormed(n) && GainAtMost(n, gain) && Settled(n, rho)
    ensures NearlySolves(n.rate.Keys, Demand(n), rho, Slack(gain, EPSILON))
  {
    var before, order :| SettledBy(n, before, order, rho);
    GainIsLipschitz(n, gain);
    SettledNearlySolves(n.rate.Keys, Demand(n), gain, before, order, EPSILON);
  }

  /** Without any equilibrium: below gain one a converged result solves the equations up to a
      multiple of EPSILON, and any two converged results for the network, from any start and by
      any map orders, are close to each other. */
  lemma ConvergedResultsAgree(n: Network, gain: real, rho: Vector, rho': Vector)
    requires WellFormed(n) && GainAtMost(n, gain) && gain < 1.0 && Settled(n, rho) && Settled(n, rho')
    ensures NearlySolves(n.rate.Keys, Demand(n), rho, Slack(gain, EPSILON))
    ensures Near(n.rate.Keys, rho, rho', Agreement(gain, Slack(gain, EPSILON)))
  {
    SettledSolves(n, gain, rho);
    SettledSolves(n, gain, rho');
    GainIsLipschitz(n, gain);
    TimesNonNegative(gain, EPSILON);
    NearSolutionsAgree(n.rate.Keys, Demand(n), gain, rho, rho', Slack(gain, EPSILON));
  }
}
