/** Damped Gauss-Seidel iteration for an arbitrary update function over a map of reals. */
module GaussSeidel {
  import opened Reals

  type Key = string
  type Vector = map<Key, real>

  /** The value a key would take, given the whole vector. */
  type Update = (Vector, Key) -> real

  /** Moving from `x` towards `target` under the damping factor omega = 0.55. */
  function Damped(x: real, target: real): real {
    (1.0 - 0.55) * x + 0.55 * target
  }

  /** One pass that updates the keys of `order` in place, one after the other. */
  function Sweep(f: Update, v: Vector, order: seq<Key>): (v': Vector)
    requires forall id <- order :: id in v
    ensures v'.Keys == v.Keys
    decreases |order|
  {
    if order == [] then v
    else Sweep(f, v[order[0] := Damped(v[order[0]], f(v, order[0]))], order[1..])
  }

  predicate Distinct(order: seq<Key>) {
    forall i, j | 0 <= i < j < |order| :: order[i] != order[j]
  }

  lemma DistinctSnoc(order: seq<Key>, id: Key)
    requires Distinct(order) && id !in order
    ensures Distinct(order + [id])
    ensures forall k :: k in order + [id] <==> k in order || k == id
  {
  }

  /** A possible iteration order over a map with the given keys. */
  predicate IsOrder(ids: set<Key>, order: seq<Key>) {
    Distinct(order) && (forall id <- order :: id in ids) && (forall id <- ids :: id in order)
  }

  predicate IsEquilibrium(ids: set<Key>, f: Update, e: Vector) {
    e.Keys == ids && forall id <- ids :: e[id] == f(e, id)
  }

  /** Max-norm distance at most `d`. */
  predicate Near(ids: set<Key>, a: Vector, b: Vector, d: real) {
    a.Keys == ids && b.Keys == ids && forall id <- ids :: Abs(a[id] - b[id]) <= d
  }

  predicate InRange(v: Vector, cap: real) {
    forall id <- v :: 0.0 <= v[id] <= cap
  }

  /** `f` maps vectors at distance at most `d` to values at distance at most `h`. */
  ghost predicate Stretches(ids: set<Key>, f: Update, d: real, h: real) {
    forall a, b, id | Near(ids, a, b, d) && id in ids :: Abs(f(a, id) - f(b, id)) <= h
  }

  /** `f` multiplies max-norm distances by at most `gain`. */
  ghost predicate Lipschitz(ids: set<Key>, f: Update, gain: real) {
    0.0 <= gain && forall d | 0.0 <= d :: Stretches(ids, f, d, Times(gain, d))
  }

  function Kappa(gain: real): real {
    1.0 - 0.55 * (1.0 - gain)
  }

  lemma {:induction false} SweepContractsFrom(ids: set<Key>, f: Update, a: Vector, b: Vector,
                                              d: real, h: real, done: set<Key>, order: seq<Key>)
    requires Near(ids, a, b, d) && Stretches(ids, f, d, h) && h <= d
    requires forall id <- order :: id in ids
    requires forall id <- done :: id in ids && Abs(a[id] - b[id]) <= 0.45 * d + 0.55 * h
    ensures forall id <- ids :: id in done || id in order ==>
        Abs(Sweep(f, a, order)[id] - Sweep(f, b, order)[id]) <= 0.45 * d + 0.55 * h
    decreases |order|
  {
    if order != [] {
      var id := order[0];
      assert Abs(f(a, id) - f(b, id)) <= h;
      var a', b' := a[id := Damped(a[id], f(a, id))], b[id := Damped(b[id], f(b, id))];
      SweepContractsFrom(ids, f, a', b', d, h, done + {id}, order[1..]);
    }
  }

  lemma KappaSplit(gain: real, d: real)
    requires 0.0 <= d && gain <= 1.0
    ensures Times(Kappa(gain), d) == 0.45 * d + 0.55 * Times(gain, d)
    ensures Times(gain, d) <= d
  {
    MulMono(gain, 1.0, d);
  }

  /** One sweep, in any order of the keys, brings two vectors closer by the factor Kappa. */
  lemma SweepContracts(ids: set<Key>, f: Update, gain: real, a: Vector, b: Vector, d: real, order: seq<Key>)
    requires Near(ids, a, b, d) && 0.0 <= d && IsOrder(ids, order)
    requires Lipschitz(ids, f, gain) && gain <= 1.0
    ensures Near(ids, Sweep(f, a, order), Sweep(f, b, order), Times(Kappa(gain), d))
  {
    KappaSplit(gain, d);
    SweepContractsFrom(ids, f, a, b, d, Times(gain, d), {}, order);
  }

  lemma {:induction false} EquilibriumIsFixed(ids: set<Key>, f: Update, e: Vector, order: seq<Key>)
    requires IsEquilibrium(ids, f, e) && forall id <- order :: id in ids
    ensures Sweep(f, e, order) == e
    decreases |order|
  {
    if order != [] {
      assert e[order[0] := Damped(e[order[0]], f(e, order[0]))] == e;
      EquilibriumIsFixed(ids, f, e, order[1..]);
    }
  }

  lemma {:induction false} SweepInRange(f: Update, v: Vector, order: seq<Key>, cap: real)
    requires InRange(v, cap) && forall id <- order :: id in v
    requires forall u, id :: 0.0 <= f(u, id) <= cap
    ensures InRange(Sweep(f, v, order), cap)
    decreases |order|
  {
    if order != [] {
      SweepInRange(f, v[order[0] := Damped(v[order[0]], f(v, order[0]))], order[1..], cap);
    }
  }

  lemma {:induction false} LargestGap(a: Vector, b: Vector, ids: set<Key>) returns (at: Key)
    requires ids <= a.Keys && ids <= b.Keys && ids != {}
    ensures at in ids && forall id <- ids :: Abs(a[id] - b[id]) <= Abs(a[at] - b[at])
    decreases ids
  {
    at :| at in ids;
    if ids != {at} {
      var other := LargestGap(a, b, ids - {at});
      if Abs(a[at] - b[at]) < Abs(a[other] - b[other]) {
        at := other;
      }
    }
  }

  /** Below gain one there is at most one equilibrium. */
  lemma EquilibriumUnique(ids: set<Key>, f: Update, gain: real, e: Vector, e': Vector)
    requires IsEquilibrium(ids, f, e) && IsEquilibrium(ids, f, e')
    requires Lipschitz(ids, f, gain) && gain < 1.0
    ensures e == e'
  {
    if ids != {} {
      var at := LargestGap(e, e', ids);
      var d := Abs(e[at] - e'[at]);
      assert Near(ids, e, e', d) && Stretches(ids, f, d, Times(gain, d));
      NoLargerThanItself(gain, d);
    }
  }

  lemma NoLargerThanItself(gain: real, d: real)
    requires gain < 1.0 && 0.0 <= d <= Times(gain, d)
    ensures d == 0.0
  {
    if d > 0.0 {
      MulStrict(gain, 1.0, d);
    }
  }

  // ---------------------------------------------------------------------------------------
  // Many sweeps
  // ---------------------------------------------------------------------------------------

  ghost predicate AllOrders(ids: set<Key>, orders: seq<seq<Key>>) {
    forall k | 0 <= k < |orders| :: IsOrder(ids, orders[k])
  }

  /** The vector after one sweep per order, each order free to differ from the others. */
  ghost function Iterate(f: Update, v: Vector, orders: seq<seq<Key>>): (v': Vector)
    requires AllOrders(v.Keys, orders)
    ensures v'.Keys == v.Keys
  {
    if orders == [] then v
    else Sweep(f, Iterate(f, v, orders[..|orders| - 1]), orders[|orders| - 1])
  }

  lemma {:induction false} IterateInRange(f: Update, v: Vector, orders: seq<seq<Key>>, cap: real)
    requires AllOrders(v.Keys, orders) && InRange(v, cap)
    requires forall u, id :: 0.0 <= f(u, id) <= cap
    ensures InRange(Iterate(f, v, orders), cap)
  {
    if orders != [] {
      IterateInRange(f, v, orders[..|orders| - 1], cap);
      SweepInRange(f, Iterate(f, v, orders[..|orders| - 1]), orders[|orders| - 1], cap);
    }
  }

  lemma PowerStep(gain: real, k: nat, d: real)
    requires 0.0 <= gain && 0.0 <= d
    ensures Times(Kappa(gain), Times(Pow(Kappa(gain), k), d)) == Times(Pow(Kappa(gain), k + 1), d)
    ensures 0.0 <= Times(Pow(Kappa(gain), k), d)
  {
    PowNonNegative(Kappa(gain), k);
    MulMono(0.0, Pow(Kappa(gain), k), d);
  }

  /** After `k` sweeps the distance to an equilibrium has shrunk by the k-th power of Kappa. */
  lemma {:induction false} IterateContracts(ids: set<Key>, f: Update, gain: real, v: Vector, e: Vector,
                                            d: real, orders: seq<seq<Key>>)
    requires Near(ids, v, e, d) && 0.0 <= d && AllOrders(ids, orders)
    requires IsEquilibrium(ids, f, e) && Lipschitz(ids, f, gain) && gain <= 1.0
    ensures Near(ids, Iterate(f, v, orders), e, Times(Pow(Kappa(gain), |orders|), d))
  {
    if orders == [] {
      assert Times(Pow(Kappa(gain), 0), d) == d;
    } else {
      var k := |orders| - 1;
      IterateContracts(ids, f, gain, v, e, d, orders[..k]);
      PowerStep(gain, k, d);
      SweepContracts(ids, f, gain, Iterate(f, v, orders[..k]), e, Times(Pow(Kappa(gain), k), d), orders[k]);
      EquilibriumIsFixed(ids, f, e, orders[k]);
    }
  }

  /** The radius around the result in which every equilibrium lies when a sweep changed nothing
      by `eps` or more. */
  function StopRadius(gain: real, eps: real): real
    requires gain < 1.0
  {
    Kappa(gain) * eps / (1.0 - Kappa(gain))
  }

  lemma RadiusFromGap(gain: real, gap: real, eps: real)
    requires 0.0 <= gain < 1.0 && gap <= Times(Kappa(gain), gap + eps)
    ensures gap <= StopRadius(gain, eps)
  {
    var k := Kappa(gain);
    assert k < 1.0;
    QuotientBound(gap, k * eps, 1.0 - k);
  }

  lemma NearTriangle(ids: set<Key>, a: Vector, b: Vector, c: Vector, d: real, h: real)
    requires Near(ids, a, b, d) && Near(ids, b, c, h)
    ensures Near(ids, a, c, h + d)
  {
  }

  lemma NearWider(ids: set<Key>, a: Vector, b: Vector, d: real, h: real)
    requires Near(ids, a, b, d) && d <= h
    ensures Near(ids, a, b, h)
  {
  }

  lemma GapExists(ids: set<Key>, a: Vector, b: Vector) returns (gap: real)
    requires a.Keys == ids && b.Keys == ids
    ensures Near(ids, a, b, gap) && 0.0 <= gap
    ensures forall d | 0.0 <= d && Near(ids, a, b, d) :: gap <= d
  {
    gap := 0.0;
    if ids != {} {
      var at := LargestGap(a, b, ids);
      gap := Abs(a[at] - b[at]);
    }
  }

  /** The distance to an equilibrium after a sweep that moved nothing by more than `eps`. */
  lemma StoppedGap(ids: set<Key>, f: Update, gain: real, a: Vector, order: seq<Key>, e: Vector, eps: real)
    returns (gap: real)
    requires a.Keys == ids && IsOrder(ids, order) && Near(ids, a, Sweep(f, a, order), eps)
    requires IsEquilibrium(ids, f, e) && Lipschitz(ids, f, gain) && gain < 1.0 && 0.0 <= eps
    ensures Near(ids, Sweep(f, a, order), e, gap) && gap <= Times(Kappa(gain), gap + eps)
  {
    gap := GapExists(ids, Sweep(f, a, order), e);
    NearTriangle(ids, a, Sweep(f, a, order), e, eps, gap);
    SweepContracts(ids, f, gain, a, e, gap + eps, order);
    EquilibriumIsFixed(ids, f, e, order);
    TimesNonNegative(Kappa(gain), gap + eps);
  }

  /** Stopping after a sweep that moved nothing by more than `eps` leaves the result within the
      stop radius of the equilibrium. */
  lemma StoppedNearEquilibrium(ids: set<Key>, f: Update, gain: real, a: Vector, order: seq<Key>, e: Vector, eps: real)
    requires a.Keys == ids && IsOrder(ids, order) && Near(ids, a, Sweep(f, a, order), eps)
    requires IsEquilibrium(ids, f, e) && Lipschitz(ids, f, gain) && gain < 1.0 && 0.0 <= eps
    ensures Near(ids, Sweep(f, a, order), e, StopRadius(gain, eps))
  {
    var gap := StoppedGap(ids, f, gain, a, order, e, eps);
    RadiusFromGap(gain, gap, eps);
    NearWider(ids, Sweep(f, a, order), e, gap, StopRadius(gain, eps));
  }

  // ---------------------------------------------------------------------------------------
  // Consecutive residuals, when the second sweep may use another order than the first
  // ---------------------------------------------------------------------------------------

  /** `m` is exactly the largest change between `a` and `b`. */
  ghost predicate IsResidual(ids: set<Key>, a: Vector, b: Vector, m: real) {
    Near(ids, a, b, m) && 0.0 <= m && (m > 0.0 ==> exists id :: id in ids && Abs(a[id] - b[id]) == m)
  }

  lemma ResidualGrows(ids: set<Key>, a: Vector, b: Vector, m: real, id: Key, x: real)
    requires IsResidual(ids, a, b, m) && id in ids && b[id] == a[id]
    ensures IsResidual(ids, a, b[id := x], Max(m, Abs(a[id] - x)))
  {
    var b' := b[id := x];
    if Abs(a[id] - x) > m {
      assert Abs(a[id] - b'[id]) == Abs(a[id] - x);
    } else if m > 0.0 {
      var at :| at in ids && Abs(a[at] - b[at]) == m;
      assert at == id || Abs(a[at] - b'[at]) == m;
    }
  }

  lemma {:induction false} SweepElsewhere(f: Update, v: Vector, order: seq<Key>, id: Key)
    requires (forall k <- order :: k in v) && id in v && id !in order
    ensures Sweep(f, v, order)[id] == v[id]
    decreases |order|
  {
    if order != [] {
      SweepElsewhere(f, v[order[0] := Damped(v[order[0]], f(v, order[0]))], order[1..], id);
    }
  }

  /** The vector `x` that the update of `id` looks at: each entry is still the old one or
      already the new one. */
  lemma {:induction false} UpdateSees(f: Update, v: Vector, order: seq<Key>, id: Key) returns (x: Vector)
    requires Distinct(order) && (forall k <- order :: k in v) && id in order
    ensures x.Keys == v.Keys && forall k <- v :: x[k] == v[k] || x[k] == Sweep(f, v, order)[k]
    ensures Sweep(f, v, order)[id] == Damped(v[id], f(x, id))
    decreases |order|
  {
    var v' := v[order[0] := Damped(v[order[0]], f(v, order[0]))];
    if order[0] == id {
      x := v;
      SweepElsewhere(f, v', order[1..], id);
    } else {
      x := UpdateSees(f, v', order[1..], id);
      SweepElsewhere(f, v', order[1..], order[0]);
    }
  }

  lemma SlowEnough(gain: real, r: real, r': real)
    requires 0.0 <= gain < 0.5 && 0.0 < r && 0.0 <= r' <= 0.45 * r + 0.55 * Times(gain, r + r')
    ensures r' < r
  {
    MulStrict(gain, 0.5, r + r');
  }

  lemma QuickEnough(gain: real, r: real, r': real)
    requires 0.0 <= gain <= 0.3 && 0.0 <= r && 0.0 <= r' <= 0.45 * r + 0.55 * Times(gain, r + r')
    ensures r' <= 0.74 * r
  {
    MulMono(gain, 0.3, r + r');
  }

  lemma DampedGap(x: real, y: real, u: real, v: real, d: real, h: real)
    requires Abs(x - y) <= d && Abs(u - v) <= h
    ensures Abs(Damped(x, u) - Damped(y, v)) <= 0.45 * d + 0.55 * h
  {
  }

  /** Each entry of `x` is one of `a` or `b`, each of `y` one of `b` or `c`. */
  lemma MixedNear(ids: set<Key>, a: Vector, b: Vector, c: Vector, x: Vector, y: Vector, r: real, r': real)
    requires Near(ids, a, b, r) && Near(ids, b, c, r') && 0.0 <= r && 0.0 <= r'
    requires x.Keys == ids && forall k <- ids :: x[k] == a[k] || x[k] == b[k]
    requires y.Keys == ids && forall k <- ids :: y[k] == b[k] || y[k] == c[k]
    ensures Near(ids, x, y, r + r')
  {
  }

  /** `b` at `id` was updated seeing `x`, and `c` at `id` was updated from it seeing `y`. */
  lemma MoveBound(ids: set<Key>, f: Update, a: Vector, b: Vector, c: Vector, x: Vector, y: Vector,
                  r: real, r': real, h: real, id: Key)
    requires Near(ids, a, b, r) && Near(ids, b, c, r') && 0.0 <= r && 0.0 <= r' && id in ids
    requires x.Keys == ids && forall k <- ids :: x[k] == a[k] || x[k] == b[k]
    requires y.Keys == ids && forall k <- ids :: y[k] == b[k] || y[k] == c[k]
    requires b[id] == Damped(a[id], f(x, id)) && c[id] == Damped(b[id], f(y, id))
    requires Stretches(ids, f, r + r', h)
    ensures Abs(b[id] - c[id]) <= 0.45 * r + 0.55 * h
  {
    MixedNear(ids, a, b, c, x, y, r, r');
    DampedGap(a[id], b[id], f(x, id), f(y, id), r, h);
  }

  /** How far the second of two sweeps moves one key. */
  lemma SecondMove(ids: set<Key>, f: Update, a: Vector, b: Vector, c: Vector, first: seq<Key>, second: seq<Key>,
                   r: real, r': real, h: real, id: Key)
    requires a.Keys == ids && IsOrder(ids, first) && IsOrder(ids, second) && id in ids
    requires b == Sweep(f, a, first) && c == Sweep(f, b, second)
    requires Near(ids, a, b, r) && Near(ids, b, c, r') && Stretches(ids, f, r + r', h) && 0.0 <= r && 0.0 <= r'
    ensures Abs(b[id] - c[id]) <= 0.45 * r + 0.55 * h
  {
    var x := UpdateSees(f, a, first, id);
    var y := UpdateSees(f, b, second, id);
    MoveBound(ids, f, a, b, c, x, y, r, r', h, id);
  }

  lemma AttainedBelow(ids: set<Key>, a: Vector, b: Vector, m: real, bound: real)
    requires IsResidual(ids, a, b, m) && Near(ids, a, b, bound) && 0.0 <= bound
    ensures m <= bound
  {
  }

  /** How far the second of two sweeps moves anything. */
  lemma SecondSweep(ids: set<Key>, f: Update, a: Vector, first: seq<Key>, second: seq<Key>,
                    r: real, r': real, h: real)
    requires a.Keys == ids && IsOrder(ids, first) && IsOrder(ids, second)
    requires Near(ids, a, Sweep(f, a, first), r)
    requires Near(ids, Sweep(f, a, first), Sweep(f, Sweep(f, a, first), second), r')
    requires Stretches(ids, f, r + r', h) && 0.0 <= r && 0.0 <= r'
    ensures Near(ids, Sweep(f, a, first), Sweep(f, Sweep(f, a, first), second), 0.45 * r + 0.55 * h)
  {
    var b := Sweep(f, a, first);
    var c := Sweep(f, b, second);
    forall id <- ids
      ensures Abs(b[id] - c[id]) <= 0.45 * r + 0.55 * h
    {
      SecondMove(ids, f, a, b, c, first, second, r, r', h, id);
    }
  }

  /** The second residual in terms of the first. */
  lemma ResidualBound(ids: set<Key>, f: Update, gain: real, a: Vector, first: seq<Key>, second: seq<Key>,
                      r: real, r': real)
    requires a.Keys == ids && IsOrder(ids, first) && IsOrder(ids, second)
    requires Lipschitz(ids, f, gain)
    requires IsResidual(ids, a, Sweep(f, a, first), r)
    requires IsResidual(ids, Sweep(f, a, first), Sweep(f, Sweep(f, a, first), second), r')
    ensures r' <= 0.45 * r + 0.55 * Times(gain, r + r')
  {
    var b := Sweep(f, a, first);
    TimesNonNegative(gain, r + r');
    SecondSweep(ids, f, a, first, second, r, r', Times(gain, r + r'));
    AttainedBelow(ids, b, Sweep(f, b, second), r', 0.45 * r + 0.55 * Times(gain, r + r'));
  }

  /** With gain below one half the residual strictly falls from sweep to sweep, in any orders;
      with gain at most 0.3 it falls by a quarter and more. */
  lemma ResidualFalls(ids: set<Key>, f: Update, gain: real, a: Vector, first: seq<Key>, second: seq<Key>,
                      r: real, r': real)
    requires a.Keys == ids && IsOrder(ids, first) && IsOrder(ids, second)
    requires Lipschitz(ids, f, gain) && gain < 0.5
    requires IsResidual(ids, a, Sweep(f, a, first), r)
    requires IsResidual(ids, Sweep(f, a, first), Sweep(f, Sweep(f, a, first), second), r')
    ensures r > 0.0 ==> r' < r
    ensures gain <= 0.3 ==> r' <= 0.74 * r
  {
    ResidualBound(ids, f, gain, a, first, second, r, r');
    if r > 0.0 {
      SlowEnough(gain, r, r');
    }
    if gain <= 0.3 {
      QuickEnough(gain, r, r');
    }
  }

  // ---------------------------------------------------------------------------------------
  // What a small last sweep says without any equilibrium
  // ---------------------------------------------------------------------------------------

  /** `v` solves the equations `v[id] = f(v, id)` up to `slack`. */
  ghost predicate NearlySolves(ids: set<Key>, f: Update, v: Vector, slack: real) {
    v.Keys == ids && forall id <- ids :: Abs(f(v, id) - v[id]) <= slack
  }

  /** How well a vector solves them that the last sweep moved nowhere by more than `eps`. */
  function Slack(gain: real, eps: real): real {
    Times(gain, eps) + 9.0 * eps / 11.0
  }

  lemma UndampedGap(x: real, target: real, eps: real)
    requires Abs(x - Damped(x, target)) <= eps
    ensures Abs(target - Damped(x, target)) <= 9.0 * eps / 11.0
  {
    assert 0.55 * (target - Damped(x, target)) == 0.45 * (Damped(x, target) - x);
  }

  lemma SettledAt(ids: set<Key>, f: Update, gain: real, a: Vector, v: Vector, order: seq<Key>, eps: real, id: Key)
    requires a.Keys == ids && IsOrder(ids, order) && v == Sweep(f, a, order) && Near(ids, a, v, eps)
    requires Lipschitz(ids, f, gain) && 0.0 <= eps && id in ids
    ensures Abs(f(v, id) - v[id]) <= Slack(gain, eps)
  {
    var x := UpdateSees(f, a, order, id);
    assert Near(ids, v, x, eps) && Stretches(ids, f, eps, Times(gain, eps));
    UndampedGap(a[id], f(x, id), eps);
  }

  /** The vector after a sweep that moved nothing by more than `eps` nearly solves the equations. */
  lemma SettledNearlySolves(ids: set<Key>, f: Update, gain: real, a: Vector, order: seq<Key>, eps: real)
    requires a.Keys == ids && IsOrder(ids, order) && Near(ids, a, Sweep(f, a, order), eps)
    requires Lipschitz(ids, f, gain) && 0.0 <= eps
    ensures NearlySolves(ids, f, Sweep(f, a, order), Slack(gain, eps))
  {
    forall id <- ids
      ensures Abs(f(Sweep(f, a, order), id) - Sweep(f, a, order)[id]) <= Slack(gain, eps)
    {
      SettledAt(ids, f, gain, a, Sweep(f, a, order), order, eps, id);
    }
  }

  lemma SolutionGap(ids: set<Key>, f: Update, gain: real, v: Vector, w: Vector, slack: real, d: real, id: Key)
    requires NearlySolves(ids, f, v, slack) && NearlySolves(ids, f, w, slack) && Near(ids, v, w, d) && 0.0 <= d
    requires Lipschitz(ids, f, gain) && id in ids
    ensures Abs(v[id] - w[id]) <= 2.0 * slack + Times(gain, d)
  {
    assert Stretches(ids, f, d, Times(gain, d));
    assert Abs(f(v, id) - f(w, id)) <= Times(gain, d);
  }

  /** How far apart two vectors can be that solve the equations up to `slack`. */
  function Agreement(gain: real, slack: real): real
    requires gain < 1.0
  {
    2.0 * slack / (1.0 - gain)
  }

  lemma SolveGap(gain: real, slack: real, d: real)
    requires gain < 1.0 && d <= 2.0 * slack + Times(gain, d)
    ensures d <= Agreement(gain, slack)
  {
    assert d * (1.0 - gain) == d - Times(gain, d);
    QuotientBound(d, 2.0 * slack, 1.0 - gain);
  }

  /** Below gain one any two such vectors are close to each other. */
  lemma NearSolutionsAgree(ids: set<Key>, f: Update, gain: real, v: Vector, w: Vector, slack: real)
    requires NearlySolves(ids, f, v, slack) && NearlySolves(ids, f, w, slack) && 0.0 <= slack
    requires Lipschitz(ids, f, gain) && gain < 1.0
    ensures Near(ids, v, w, Agreement(gain, slack))
  {
    if ids != {} {
      var at := LargestGap(v, w, ids);
      var d := Abs(v[at] - w[at]);
      SolutionGap(ids, f, gain, v, w, slack, d, at);
      SolveGap(gain, slack, d);
      NearWider(ids, v, w, d, Agreement(gain, slack));
    }
  }
}
