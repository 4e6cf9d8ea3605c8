/** The systemic collapse probability at the end of the solver (internal/modelling/network.go). The
    logistic function is a parameter of which only the range and the direction are used. */
module Collapse {
  import opened GaussSeidel
  import opened Reals

  /** What is known of `sigmoid`. */
  ghost predicate IsSigmoid(sigmoid: real -> real) {
    && (forall x :: 0.0 <= sigmoid(x) <= 1.0)
    && (forall x, y | x <= y :: sigmoid(x) <= sigmoid(y))
  }

  function CollapseAt(sigmoid: real -> real, rho: real): real {
    sigmoid((rho - 0.90) / 0.04)
  }

  /** The probability that no service of `order` collapses, each independently of the others. */
  function Survival(sigmoid: real -> real, rho: Vector, order: seq<Key>): real
    requires forall id <- order :: id in rho
  {
    if order == [] then 1.0
    else
      var last := |order| - 1;
      Times(Survival(sigmoid, rho, order[..last]), 1.0 - CollapseAt(sigmoid, rho[order[last]]))
  }

  lemma TimesInUnit(x: real, y: real)
    requires 0.0 <= x <= 1.0 && 0.0 <= y <= 1.0
    ensures 0.0 <= Times(x, y) <= 1.0
  {
    TimesMono(0.0, x, 0.0, y);
    TimesMono(x, 1.0, y, 1.0);
  }

  lemma TimesMono(x: real, x': real, y: real, y': real)
    requires 0.0 <= x <= x' && 0.0 <= y <= y'
    ensures Times(x, y) <= Times(x', y')
  {
    MulMono(x, x', y);
    MulMono(y, y', x');
  }

  lemma {:induction false} SurvivalInUnit(sigmoid: real -> real, rho: Vector, order: seq<Key>)
    requires IsSigmoid(sigmoid) && forall id <- order :: id in rho
    ensures 0.0 <= Survival(sigmoid, rho, order) <= 1.0
  {
    if order != [] {
      var last := |order| - 1;
      SurvivalInUnit(sigmoid, rho, order[..last]);
      TimesInUnit(Survival(sigmoid, rho, order[..last]), 1.0 - CollapseAt(sigmoid, rho[order[last]]));
    }
  }

  function Without(order: seq<Key>, i: nat): seq<Key>
    requires i < |order|
  {
    order[..i] + order[i + 1..]
  }

  lemma Swap(x: real, y: real, z: real)
    ensures Times(Times(x, y), z) == Times(Times(x, z), y)
  {
  }

  /** Any service can be taken out of the product. */
  lemma {:induction false} SurvivalWithout(sigmoid: real -> real, rho: Vector, order: seq<Key>, i: nat)
    requires i < |order| && forall id <- order :: id in rho
    ensures Survival(sigmoid, rho, order)
         == Times(Survival(sigmoid, rho, Without(order, i)), 1.0 - CollapseAt(sigmoid, rho[order[i]]))
  {
    var last := |order| - 1;
    if i == last {
      assert Without(order, i) == order[..last];
    } else {
      var rest := Without(order, i);
      SurvivalWithout(sigmoid, rho, order[..last], i);
      assert rest[..|rest| - 1] == Without(order[..last], i) && rest[|rest| - 1] == order[last];
      Swap(Survival(sigmoid, rho, rest[..|rest| - 1]), 1.0 - CollapseAt(sigmoid, rho[order[i]]),
           1.0 - CollapseAt(sigmoid, rho[order[last]]));
    }
  }

  lemma WithoutIsOrder(ids: set<Key>, order: seq<Key>, i: nat)
    requires IsOrder(ids, order) && i < |order|
    ensures IsOrder(ids - {order[i]}, Without(order, i))
  {
    var rest := Without(order, i);
    forall id <- ids - {order[i]}
      ensures id in rest
    {
      var j :| 0 <= j < |order| && order[j] == id;
      assert rest[if j < i then j else j - 1] == id;
    }
  }

  /** The probability does not depend on the order of the map. */
  lemma {:induction false} AnyOrder(sigmoid: real -> real, rho: Vector, ids: set<Key>, p: seq<Key>, q: seq<Key>)
    requires ids <= rho.Keys && IsOrder(ids, p) && IsOrder(ids, q)
    ensures Survival(sigmoid, rho, p) == Survival(sigmoid, rho, q)
    decreases |p|
  {
    if p == [] {
      if q != [] {
        HeadIsKey(ids, q);
      }
    } else {
      var last := |p| - 1;
      assert p[last] in ids;
      var j :| 0 <= j < |q| && q[j] == p[last];
      WithoutIsOrder(ids, p, last);
      WithoutIsOrder(ids, q, j);
      assert Without(p, last) == p[..last];
      AnyOrder(sigmoid, rho, ids - {p[last]}, p[..last], Without(q, j));
      SurvivalWithout(sigmoid, rho, q, j);
    }
  }

  lemma HeadIsKey(ids: set<Key>, order: seq<Key>)
    requires IsOrder(ids, order) && order != []
    ensures exists id :: id in ids
  {
    assert order[0] in ids;
  }

  /** More load everywhere, no less risk of collapse. */
  lemma {:induction false} MoreLoadMoreCollapse(sigmoid: real -> real, rho: Vector, rho': Vector, order: seq<Key>)
    requires IsSigmoid(sigmoid) && forall id <- order :: id in rho && id in rho' && rho[id] <= rho'[id]
    ensures Survival(sigmoid, rho', order) <= Survival(sigmoid, rho, order)
  {
    if order != [] {
      var last := |order| - 1;
      var id, before := order[last], order[..last];
      MoreLoadMoreCollapse(sigmoid, rho, rho', before);
      SurvivalInUnit(sigmoid, rho', before);
      CollapseGrows(sigmoid, rho[id], rho'[id]);
      TimesMono(Survival(sigmoid, rho', before), Survival(sigmoid, rho, before),
                1.0 - CollapseAt(sigmoid, rho'[id]), 1.0 - CollapseAt(sigmoid, rho[id]));
    }
  }

  lemma CollapseGrows(sigmoid: real -> real, x: real, y: real)
    requires IsSigmoid(sigmoid) && x <= y
    ensures CollapseAt(sigmoid, x) <= CollapseAt(sigmoid, y) <= 1.0
  {
    assert (x - 0.90) / 0.04 <= (y - 0.90) / 0.04;
  }

  /** `probability` is that at least one of the services of `rho` collapses. */
  ghost predicate IsCollapse(sigmoid: real -> real, rho: Vector, probability: real) {
    && (exists order :: IsOrder(rho.Keys, order))
    && forall order | IsOrder(rho.Keys, order) :: probability == 1.0 - Survival(sigmoid, rho, order)
  }

  /** The loop over the result, in any map order, and the cap after it, which changes nothing. */
  method SystemicCollapse(sigmoid: real -> real, rho: Vector) returns (probability: real)
    requires IsSigmoid(sigmoid)
    ensures IsCollapse(sigmoid, rho, probability) && 0.0 <= probability <= 1.0
  {
    probability := 0.0;
    ghost var order: seq<Key> := [];
    var todo := rho.Keys;
    while todo != {}
      invariant todo <= rho.Keys && IsOrder(rho.Keys - todo, order)
      invariant probability == 1.0 - Survival(sigmoid, rho, order)
      decreases todo
    {
      var id :| id in todo;
      DistinctSnoc(order, id);
      assert (order + [id])[..|order|] == order;
      probability := 1.0 - Times(1.0 - probability, 1.0 - CollapseAt(sigmoid, rho[id]));
      order, todo := order + [id], todo - {id};
    }
    assert rho.Keys - todo == rho.Keys;
    SurvivalInUnit(sigmoid, rho, order);
    forall q | IsOrder(rho.Keys, q)
      ensures probability == 1.0 - Survival(sigmoid, rho, q)
    {
      AnyOrder(sigmoid, rho, rho.Keys, order, q);
    }
    probability := Min(probability, 1.0);
  }
}
