/** Which way, and by how much, services act on each other in the solver's equations
    (internal/modelling/network.go). */
module Coupling {
  import opened FixedPoint
  import opened GaussSeidel
  import opened Reals

  predicate RatesNonNegative(n: Network) {
    forall id <- n.rate :: 0.0 <= n.rate[id]
  }

  predicate NonNegative(v: Vector) {
    forall id <- v :: 0.0 <= v[id]
  }

  predicate Below(a: Vector, b: Vector) {
    a.Keys == b.Keys && forall id <- a :: a[id] <= b[id]
  }

  // ---------------------------------------------------------------------------------------
  // More load upstream is more load downstream
  // ---------------------------------------------------------------------------------------

  lemma InjectionMono(w: real, r: real, x: real, y: real)
    requires 0.0 < w && 0.0 <= r && x <= y
    ensures Injection(w, r, x) <= Injection(w, r, y)
    ensures 0.0 <= x ==> 0.0 <= Injection(w, r, x)
  {
    var u, v := Min(x, 1.0), Min(y, 1.0);
    assert 0.0 <= w * r by { MulMono(0.0, w, r); }
    MulMono(u, v, w * r);
    if 0.0 <= x {
      MulMono(0.0, u, w * r);
    }
  }

  lemma {:induction false} LoadMono(n: Network, a: Vector, b: Vector, id: Service, k: nat)
    requires RatesNonNegative(n) && a.Keys == n.rate.Keys && Below(a, b) && id in n.rate && k <= |n.edges|
    ensures Load(n, a, id, k) <= Load(n, b, id, k)
  {
    if k > 0 {
      var e := n.edges[k - 1];
      LoadMono(n, a, b, id, k - 1);
      if Feeds(n, e, id) {
        InjectionMono(e.weight, n.rate[e.source], a[e.source], b[e.source]);
      }
    }
  }

  lemma UtilisationMono(x: real, y: real, mu: real)
    requires 0.0 < mu && x <= y
    ensures Utilisation(x, mu) <= Utilisation(y, mu)
  {
    var p, q := x / mu, y / mu;
    assert p * mu == x && q * mu == y;
    if q < p {
      MulStrict(q, p, mu);
    }
  }

  /** Raising entries never lowers what the equations give for any service. */
  lemma DemandMono(n: Network, a: Vector, b: Vector, id: Service)
    requires WellFormed(n) && RatesNonNegative(n) && a.Keys == n.rate.Keys && Below(a, b) && id in n.rate
    ensures Demand(n)(a, id) <= Demand(n)(b, id)
  {
    LoadMono(n, a, b, id, |n.edges|);
    UtilisationMono(Load(n, a, id, |n.edges|), Load(n, b, id, |n.edges|), n.mu[id]);
  }

  /** The clamped utilisation of a service by its own requests. */
  function Own(n: Network, id: Service): real
    requires WellFormed(n) && id in n.rate
  {
    Utilisation(n.rate[id], n.mu[id])
  }

  lemma {:induction false} LoadAtLeastOwn(n: Network, v: Vector, id: Service, k: nat)
    requires RatesNonNegative(n) && v.Keys == n.rate.Keys && NonNegative(v) && id in n.rate && k <= |n.edges|
    ensures n.rate[id] <= Load(n, v, id, k)
  {
    if k > 0 {
      var e := n.edges[k - 1];
      LoadAtLeastOwn(n, v, id, k - 1);
      if Feeds(n, e, id) {
        InjectionMono(e.weight, n.rate[e.source], v[e.source], v[e.source]);
      }
    }
  }

  /** Coupling only ever adds to the own utilisation. */
  lemma DemandAtLeastOwn(n: Network, v: Vector, id: Service)
    requires WellFormed(n) && RatesNonNegative(n) && v.Keys == n.rate.Keys && NonNegative(v) && id in n.rate
    ensures Own(n, id) <= Demand(n)(v, id)
  {
    LoadAtLeastOwn(n, v, id, |n.edges|);
    UtilisationMono(n.rate[id], Load(n, v, id, |n.edges|), n.mu[id]);
  }

  lemma EquilibriumInRange(n: Network, e: Vector)
    requires WellFormed(n) && IsEquilibrium(n.rate.Keys, Demand(n), e)
    ensures NonNegative(e)
  {
    DemandInRange(n);
  }

  lemma EquilibriumAtLeastOwn(n: Network, e: Vector, id: Service)
    requires WellFormed(n) && RatesNonNegative(n) && IsEquilibrium(n.rate.Keys, Demand(n), e) && id in n.rate
    ensures Own(n, id) <= e[id]
  {
    EquilibriumInRange(n, e);
    DemandAtLeastOwn(n, e, id);
  }

  lemma {:induction false} SweepAtLeastOwn(n: Network, v: Vector, order: seq<Key>, id: Service)
    requires WellFormed(n) && RatesNonNegative(n) && v.Keys == n.rate.Keys && NonNegative(v) && id in n.rate
    requires (forall k <- order :: k in v) && Own(n, id) <= v[id]
    ensures NonNegative(Sweep(Demand(n), v, order)) && Own(n, id) <= Sweep(Demand(n), v, order)[id]
    decreases |order|
  {
    if order != [] {
      var v' := v[order[0] := Damped(v[order[0]], Demand(n)(v, order[0]))];
      DemandInRange(n);
      DemandAtLeastOwn(n, v, id);
      SweepAtLeastOwn(n, v', order[1..], id);
    }
  }

  lemma {:induction false} IterateAtLeastOwn(n: Network, start: Vector, orders: seq<seq<Key>>, id: Service)
    requires WellFormed(n) && RatesNonNegative(n) && start.Keys == n.rate.Keys && NonNegative(start) && id in n.rate
    requires AllOrders(n.rate.Keys, orders) && Own(n, id) <= start[id]
    ensures NonNegative(Iterate(Demand(n), start, orders)) && Own(n, id) <= Iterate(Demand(n), start, orders)[id]
  {
    if orders != [] {
      IterateAtLeastOwn(n, start, orders[..|orders| - 1], id);
      SweepAtLeastOwn(n, Iterate(Demand(n), start, orders[..|orders| - 1]), orders[|orders| - 1], id);
    }
  }

  /** The solver never reports an observed service below its own utilisation. */
  lemma ResultAtLeastOwn(windows: map<Service, Window>, edges: seq<Edge>, orders: seq<seq<Key>>,
                         sigmoid: real -> real, r: Result, id: Service)
    requires Solved(NetworkOf(windows, edges), Initial(windows), orders, sigmoid, r)
    requires (forall k <- windows :: 0.0 <= windows[k].rate) && id in windows && Observed(windows[id])
    ensures Own(NetworkOf(windows, edges), id) <= r.rho[id]
  {
    var n := NetworkOf(windows, edges);
    assert Own(n, id) <= Initial(windows)[id] by { OwnIsInitial(windows[id]); }
    IterateAtLeastOwn(n, Initial(windows), orders, id);
  }

  lemma OwnIsInitial(w: Window)
    requires Observed(w)
    ensures InitialRho(w) == Utilisation(w.rate, ServiceRate(w))
  {
  }

  // ---------------------------------------------------------------------------------------
  // One more edge
  // ---------------------------------------------------------------------------------------

  function WithEdge(n: Network, e: Edge): Network {
    n.(edges := n.edges + [e])
  }

  lemma {:induction false} LoadBeforeEdge(n: Network, e: Edge, v: Vector, id: Service, k: nat)
    requires v.Keys == n.rate.Keys && id in n.rate && k <= |n.edges|
    ensures Load(WithEdge(n, e), v, id, k) == Load(n, v, id, k)
  {
    if k > 0 {
      LoadBeforeEdge(n, e, v, id, k - 1);
    }
  }

  lemma LoadWithEdge(n: Network, e: Edge, v: Vector, id: Service)
    requires v.Keys == n.rate.Keys && id in n.rate
    ensures Load(WithEdge(n, e), v, id, |n.edges| + 1) == Load(n, v, id, |n.edges|) + Injected(n, v, id, e)
  {
    LoadBeforeEdge(n, e, v, id, |n.edges|);
    assert WithEdge(n, e).edges[|n.edges|] == e;
  }

  /** One more edge never lowers what the equations give for any service. */
  lemma EdgeRaisesDemand(n: Network, e: Edge, v: Vector, id: Service)
    requires WellFormed(n) && RatesNonNegative(n) && v.Keys == n.rate.Keys && NonNegative(v) && id in n.rate
    ensures Demand(n)(v, id) <= Demand(WithEdge(n, e))(v, id)
  {
    LoadWithEdge(n, e, v, id);
    if Feeds(n, e, id) {
      InjectionMono(e.weight, n.rate[e.source], v[e.source], v[e.source]);
    }
    UtilisationMono(Load(n, v, id, |n.edges|), Load(WithEdge(n, e), v, id, |n.edges| + 1), n.mu[id]);
  }

  lemma {:induction false} LargestRise(a: Vector, b: Vector, ids: set<Key>) returns (at: Key)
    requires ids <= a.Keys && ids <= b.Keys && ids != {}
    ensures at in ids && forall id <- ids :: a[id] - b[id] <= a[at] - b[at]
    decreases ids
  {
    at :| at in ids;
    if ids != {at} {
      var other := LargestRise(a, b, ids - {at});
      if a[at] - b[at] < a[other] - b[other] {
        at := other;
      }
    }
  }

  lemma RiseBound(ids: set<Key>, f: Update, gain: real, u: Vector, e: Vector, d: real, at: Key)
    requires Lipschitz(ids, f, gain) && IsEquilibrium(ids, f, e) && at in ids && 0.0 <= d
    requires u.Keys == ids && forall id <- ids :: u[id] - e[id] <= d
    requires f(u, at) <= f(Higher(u, e), at)
    ensures f(u, at) - e[at] <= Times(gain, d)
  {
    assert Near(ids, Higher(u, e), e, d);
    StretchAt(ids, f, gain, Higher(u, e), e, d, at);
  }

  function Higher(u: Vector, e: Vector): (w: Vector)
    requires u.Keys == e.Keys
    ensures w.Keys == u.Keys && Below(u, w) && forall id <- u :: w[id] == Max(u[id], e[id])
  {
    map id <- u :: Max(u[id], e[id])
  }

  lemma StretchAt(ids: set<Key>, f: Update, gain: real, a: Vector, b: Vector, d: real, at: Key)
    requires Lipschitz(ids, f, gain) && Near(ids, a, b, d) && 0.0 <= d && at in ids
    ensures f(a, at) - f(b, at) <= Times(gain, d)
  {
    assert Stretches(ids, f, d, Times(gain, d));
    assert Abs(f(a, at) - f(b, at)) <= Times(gain, d);
  }

  /** Below gain one an equilibrium is above every vector the equations do not lower anywhere. */
  lemma AboveSubsolutions(n: Network, gain: real, u: Vector, e: Vector)
    requires WellFormed(n) && RatesNonNegative(n) && GainAtMost(n, gain) && gain < 1.0
    requires IsEquilibrium(n.rate.Keys, Demand(n), e)
    requires u.Keys == n.rate.Keys && forall id <- n.rate.Keys :: u[id] <= Demand(n)(u, id)
    ensures Below(u, e)
  {
    if n.rate.Keys != {} {
      var at := LargestRise(u, e, n.rate.Keys);
      var d := u[at] - e[at];
      if d > 0.0 {
        DemandMono(n, u, Higher(u, e), at);
        GainIsLipschitz(n, gain);
        RiseBound(n.rate.Keys, Demand(n), gain, u, e, d, at);
        NoLargerThanItself(gain, d);
      }
    }
  }

  /** ... so one more edge never lowers any entry of the equilibrium. */
  lemma EdgeRaisesEquilibrium(n: Network, added: Edge, gain: real, e: Vector, e': Vector)
    requires WellFormed(n) && RatesNonNegative(n) && GainAtMost(WithEdge(n, added), gain) && gain < 1.0
    requires IsEquilibrium(n.rate.Keys, Demand(n), e)
    requires IsEquilibrium(n.rate.Keys, Demand(WithEdge(n, added)), e')
    ensures Below(e, e')
  {
    EquilibriumInRange(n, e);
    forall id <- n.rate.Keys
      ensures e[id] <= Demand(WithEdge(n, added))(e, id)
    {
      EdgeRaisesDemand(n, added, e, id);
    }
    AboveSubsolutions(WithEdge(n, added), gain, e, e');
  }

  // ---------------------------------------------------------------------------------------
  // How strong the coupling is
  // ---------------------------------------------------------------------------------------

  /** A tenth of the weighted request rate of an edge, if it leads from `source` to `id`. */
  function CoupledBy(n: Network, source: Service, id: Service, e: Edge): real
    requires source in n.rate
  {
    if Feeds(n, e, id) && e.source == source then 0.10 * e.weight * n.rate[source] else 0.0
  }

  /** ... summed over the first `k` edges. */
  function Coupled(n: Network, source: Service, id: Service, k: nat): real
    requires source in n.rate && k <= |n.edges|
  {
    if k == 0 then 0.0 else Coupled(n, source, id, k - 1) + CoupledBy(n, source, id, n.edges[k - 1])
  }

  lemma InjectionRaised(w: real, r: real, y: real, x: real)
    requires 0.0 <= x && y + x <= 1.0
    ensures Injection(w, r, y + x) == Injection(w, r, y) + Times(0.10 * w * r, x)
  {
    assert w * r * (y + x) * 0.10 == w * r * y * 0.10 + 0.10 * w * r * x;
  }

  lemma InjectedRaised(n: Network, v: Vector, source: Service, x: real, id: Service, e: Edge)
    requires v.Keys == n.rate.Keys && source in n.rate && 0.0 <= x && v[source] + x <= 1.0
    ensures Injected(n, v[source := v[source] + x], id, e)
         == Injected(n, v, id, e) + Times(CoupledBy(n, source, id, e), x)
  {
    if Feeds(n, e, id) && e.source == source {
      InjectionRaised(e.weight, n.rate[source], v[source], x);
    } else {
      TimesSum(0.0, 0.0, x);
    }
  }

  lemma SumRaised(a: real, b: real, i: real, j: real, g: real, h: real, x: real)
    requires b == a + Times(g, x) && j == i + Times(h, x)
    ensures b + j == a + i + Times(g + h, x)
  {
    TimesSum(g, h, x);
  }

  lemma {:induction false} LoadRaised(n: Network, v: Vector, source: Service, x: real, id: Service, k: nat)
    requires v.Keys == n.rate.Keys && source in n.rate && id in n.rate && k <= |n.edges|
    requires 0.0 <= x && v[source] + x <= 1.0
    ensures Load(n, v[source := v[source] + x], id, k) == Load(n, v, id, k) + Times(Coupled(n, source, id, k), x)
  {
    if k == 0 {
      TimesSum(0.0, 0.0, x);
    } else {
      var e, v' := n.edges[k - 1], v[source := v[source] + x];
      LoadRaised(n, v, source, x, id, k - 1);
      InjectedRaised(n, v, source, x, id, e);
      SumRaised(Load(n, v, id, k - 1), Load(n, v', id, k - 1), Injected(n, v, id, e), Injected(n, v', id, e),
                Coupled(n, source, id, k - 1), CoupledBy(n, source, id, e), x);
    }
  }

  lemma Unclamped(load: real, mu: real)
    requires 0.0 < mu && 0.0 <= load && load <= 1.5 * mu
    ensures Times(mu, Utilisation(load, mu)) == load
  {
    var q := load / mu;
    assert q * mu == load;
    if q < 0.0 {
      MulStrict(q, 0.0, mu);
    }
    if 1.5 < q {
      MulStrict(1.5, q, mu);
    }
  }

  /** Below the caps: raising one entry by `x` raises the load the equations give for `id` by exactly
      what its edges carry. */
  lemma DemandRaised(n: Network, v: Vector, source: Service, x: real, id: Service)
    requires WellFormed(n) && v.Keys == n.rate.Keys && source in n.rate && id in n.rate
    requires 0.0 <= x && v[source] + x <= 1.0
    requires 0.0 <= Load(n, v, id, |n.edges|) <= 1.5 * n.mu[id]
    requires 0.0 <= Load(n, v[source := v[source] + x], id, |n.edges|) <= 1.5 * n.mu[id]
    ensures Times(n.mu[id], Demand(n)(v[source := v[source] + x], id))
         == Times(n.mu[id], Demand(n)(v, id)) + Times(Coupled(n, source, id, |n.edges|), x)
  {
    LoadRaised(n, v, source, x, id, |n.edges|);
    Unclamped(Load(n, v, id, |n.edges|), n.mu[id]);
    Unclamped(Load(n, v[source := v[source] + x], id, |n.edges|), n.mu[id]);
  }

  /** A saturated service passes on no more than one at utilisation one. */
  lemma {:induction false} LoadSaturates(n: Network, v: Vector, source: Service, x: real, id: Service, k: nat)
    requires v.Keys == n.rate.Keys && source in n.rate && id in n.rate && k <= |n.edges|
    requires 1.0 <= v[source] && 1.0 <= x
    ensures Load(n, v[source := x], id, k) == Load(n, v, id, k)
  {
    if k > 0 {
      LoadSaturates(n, v, source, x, id, k - 1);
    }
  }

  /** For instance: a saturated service with 100 requests a second feeds another, half used by its own
      50, over an edge of weight one half. */
  lemma HalfUsedService()
    ensures var n := Network(map["A" := 100.0, "B" := 50.0], map["A" := 100.0, "B" := 100.0], [Edge("A", "B", 0.5)]);
      WellFormed(n) && IsEquilibrium({"A", "B"}, Demand(n), map["A" := 1.0, "B" := 0.55])
  {
    var n := Network(map["A" := 100.0, "B" := 50.0], map["A" := 100.0, "B" := 100.0], [Edge("A", "B", 0.5)]);
    var e := map["A" := 1.0, "B" := 0.55];
    assert e.Keys == n.rate.Keys == {"A", "B"};
    assert Load(n, e, "A", 0) == 100.0 && Load(n, e, "A", 1) == 100.0;
    assert Load(n, e, "B", 0) == 50.0 && Injected(n, e, "B", n.edges[0]) == 5.0;
    assert Load(n, e, "B", 1) == 55.0;
  }

  // ---------------------------------------------------------------------------------------
  // How far one sweep goes
  // ---------------------------------------------------------------------------------------

  predicate Uncoupled(n: Network, id: Service) {
    forall i | 0 <= i < |n.edges| :: !Feeds(n, n.edges[i], id)
  }

  lemma {:induction false} UncoupledLoad(n: Network, v: Vector, id: Service, k: nat)
    requires v.Keys == n.rate.Keys && id in n.rate && k <= |n.edges| && Uncoupled(n, id)
    ensures Load(n, v, id, k) == n.rate[id]
  {
    if k > 0 {
      UncoupledLoad(n, v, id, k - 1);
    }
  }

  lemma UncoupledSweep(n: Network, v: Vector, order: seq<Key>, id: Service)
    requires WellFormed(n) && v.Keys == n.rate.Keys && IsOrder(n.rate.Keys, order) && id in n.rate && Uncoupled(n, id)
    ensures Sweep(Demand(n), v, order)[id] - Own(n, id) == 0.45 * (v[id] - Own(n, id))
  {
    var x := UpdateSees(Demand(n), v, order, id);
    UncoupledLoad(n, x, id, |n.edges|);
  }

  /** How far the service is above its own utilisation after the sweeps. */
  ghost function Remaining(n: Network, start: Vector, orders: seq<seq<Key>>, id: Service): real
    requires WellFormed(n) && start.Keys == n.rate.Keys && AllOrders(n.rate.Keys, orders) && id in n.rate
  {
    Iterate(Demand(n), start, orders)[id] - Own(n, id)
  }

  lemma RemainingStep(n: Network, start: Vector, orders: seq<seq<Key>>, id: Service)
    requires WellFormed(n) && start.Keys == n.rate.Keys && AllOrders(n.rate.Keys, orders) && id in n.rate
    requires Uncoupled(n, id) && orders != []
    ensures Remaining(n, start, orders, id) == 0.45 * Remaining(n, start, orders[..|orders| - 1], id)
  {
    var k := |orders| - 1;
    UncoupledSweep(n, Iterate(Demand(n), start, orders[..k]), orders[k], id);
  }

  /** A service nothing feeds closes 55% of its distance to its own utilisation in every sweep, whatever
      the order: after `k` sweeps 0.45 to the k-th power of it is left. */
  lemma {:induction false} UncoupledConverges(n: Network, start: Vector, orders: seq<seq<Key>>, id: Service)
    requires WellFormed(n) && start.Keys == n.rate.Keys && AllOrders(n.rate.Keys, orders) && id in n.rate
    requires Uncoupled(n, id)
    ensures Remaining(n, start, orders, id) == Times(Pow(0.45, |orders|), Remaining(n, start, [], id))
  {
    if orders == [] {
      NothingShrunk(Remaining(n, start, [], id));
    } else {
      var before := orders[..|orders| - 1];
      UncoupledConverges(n, start, before, id);
      RemainingStep(n, start, orders, id);
      OnceShrunk(|before|, Remaining(n, start, [], id), Remaining(n, start, before, id),
                 Remaining(n, start, orders, id));
    }
  }

  lemma NothingShrunk(d: real)
    ensures d == Times(Pow(0.45, 0), d)
  {
  }

  lemma OnceShrunk(k: nat, d: real, x: real, y: real)
    requires x == Times(Pow(0.45, k), d) && y == 0.45 * x
    ensures y == Times(Pow(0.45, k + 1), d)
  {
    PowTimesStep(0.45, k, d);
  }
}
