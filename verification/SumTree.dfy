/** The sum tree of the prioritised replay buffer as a sequence: node 1 is the root, the children
    of node `i` are `2 * i` and `2 * i + 1`, and the leaves are the nodes from `base` on. */
module SumTree {
  import opened Reals

  /** The powers of two. */
  predicate IsPower(n: nat) {
    n == 1 || (n > 1 && n % 2 == 0 && IsPower(n / 2))
  }

  predicate NodeSums(tree: seq<real>, base: nat, i: nat)
    requires |tree| == 2 * base && 1 <= i < base
  {
    tree[i] == tree[2 * i] + tree[2 * i + 1]
  }

  /** Every inner node is the sum of its children. */
  predicate IsSumTree(tree: seq<real>, base: nat) {
    IsPower(base) && |tree| == 2 * base && forall i | 1 <= i < base :: NodeSums(tree, base, i)
  }

  predicate LeavesNonNegative(tree: seq<real>, base: nat)
    requires |tree| == 2 * base
  {
    forall i | base <= i < 2 * base :: 0.0 <= tree[i]
  }

  /** The sum of the first `k` leaves. */
  function Prefix(tree: seq<real>, base: nat, k: nat): real
    requires |tree| == 2 * base && k <= base
  {
    if k == 0 then 0.0 else Prefix(tree, base, k - 1) + tree[base + k - 1]
  }

  lemma {:induction false} PrefixMonotone(tree: seq<real>, base: nat, j: nat, k: nat)
    requires |tree| == 2 * base && LeavesNonNegative(tree, base) && j <= k <= base
    ensures Prefix(tree, base, j) <= Prefix(tree, base, k)
  {
    if j < k {
      PrefixMonotone(tree, base, j, k - 1);
    }
  }

  /** Node `i` stands for the `width` leaves from `lo` on. */
  predicate Spans(base: nat, i: nat, lo: nat, width: nat) {
    IsPower(width) && i * width == base + lo && lo + width <= base
  }

  lemma SmallerFactor(i: nat, j: nat, width: nat)
    requires i * width < j * width
    ensures i < j
  {
  }

  lemma SpanIsInner(base: nat, i: nat, lo: nat, width: nat)
    requires Spans(base, i, lo, width) && 0 < base
    ensures 1 <= i < 2 * base && (width == 1 <==> base <= i)
    ensures width > 1 ==> Spans(base, 2 * i, lo, width / 2) && Spans(base, 2 * i + 1, lo + width / 2, width / 2)
  {
    if width > 1 {
      var half := width / 2;
      assert i * width == 2 * i * half;
      assert (2 * i + 1) * half == 2 * i * half + half;
      assert base * 2 <= base * width;
      SmallerFactor(i, base, width);
    }
  }

  /** A node holds the sum of the leaves it stands for. */
  lemma {:induction false} SpanSum(tree: seq<real>, base: nat, i: nat, lo: nat, width: nat)
    requires IsSumTree(tree, base) && Spans(base, i, lo, width) && 0 < base
    ensures 1 <= i < 2 * base
    ensures tree[i] == Prefix(tree, base, lo + width) - Prefix(tree, base, lo)
    decreases width
  {
    SpanIsInner(base, i, lo, width);
    if width > 1 {
      SpanSum(tree, base, 2 * i, lo, width / 2);
      SpanSum(tree, base, 2 * i + 1, lo + width / 2, width / 2);
      assert NodeSums(tree, base, i);
    }
  }

  /** The root holds the sum of all leaves. */
  lemma RootSum(tree: seq<real>, base: nat)
    requires IsSumTree(tree, base)
    ensures 1 < |tree| && tree[1] == Prefix(tree, base, base)
  {
    SpanSum(tree, base, 1, 0, base);
  }

  /** Leaf `k` is the one whose interval of prefix sums holds `v`. */
  predicate Holds(tree: seq<real>, base: nat, k: nat, v: real)
    requires |tree| == 2 * base && k < base
  {
    Prefix(tree, base, k) < v <= Prefix(tree, base, k + 1)
  }

  // ---------------------------------------------------------------------------------------
  // Walking down from the root
  // ---------------------------------------------------------------------------------------

  /** Looking for `v`, the walk is at node `i`, which stands for the leaves from `lo` on, and
      `rest` of `v` is still to be found below it. */
  ghost predicate Walking(tree: seq<real>, base: nat, v: real, i: nat, lo: nat, width: nat, rest: real) {
    && 0 < base && IsSumTree(tree, base) && LeavesNonNegative(tree, base) && Spans(base, i, lo, width)
    && rest == v - Prefix(tree, base, lo) && v <= Prefix(tree, base, lo + width)
    && (if v > 0.0 then rest > 0.0 else v == 0.0 && lo == 0)
  }

  lemma WalkStarts(tree: seq<real>, base: nat, v: real)
    requires IsSumTree(tree, base) && LeavesNonNegative(tree, base) && 0.0 <= v <= tree[1]
    ensures Walking(tree, base, v, 1, 0, base, v)
  {
    RootSum(tree, base);
  }

  lemma WalkStep(tree: seq<real>, base: nat, v: real, i: nat, lo: nat, width: nat, rest: real)
    requires Walking(tree, base, v, i, lo, width, rest) && i < base
    ensures width > 1 && 2 * i + 1 < 2 * base
    ensures rest <= tree[2 * i] ==> Walking(tree, base, v, 2 * i, lo, width / 2, rest)
    ensures tree[2 * i] < rest ==>
        Walking(tree, base, v, 2 * i + 1, lo + width / 2, width / 2, rest - tree[2 * i])
  {
    SpanIsInner(base, i, lo, width);
    SpanSum(tree, base, 2 * i, lo, width / 2);
    PrefixMonotone(tree, base, lo, lo + width / 2);
  }

  lemma WalkEnds(tree: seq<real>, base: nat, v: real, i: nat, lo: nat, width: nat, rest: real)
    requires Walking(tree, base, v, i, lo, width, rest) && base <= i
    ensures i == base + lo && lo < base
    ensures v > 0.0 ==> Holds(tree, base, lo, v)
    ensures v == 0.0 ==> lo == 0
  {
    SpanIsInner(base, i, lo, width);
  }

  // ---------------------------------------------------------------------------------------
  // Repairing the sums after a leaf has changed
  // ---------------------------------------------------------------------------------------

  /** The sums hold everywhere, except perhaps at node `bad`. */
  ghost predicate SumsExcept(tree: seq<real>, base: nat, bad: nat) {
    |tree| == 2 * base && forall j | 1 <= j < base && j != bad :: NodeSums(tree, base, j)
  }

  lemma SetLeaf(tree: seq<real>, base: nat, i: nat, x: real)
    requires IsSumTree(tree, base) && base <= i < 2 * base
    ensures SumsExcept(tree[i := x], base, i / 2)
  {
    var tree' := tree[i := x];
    forall j | 1 <= j < base && j != i / 2
      ensures NodeSums(tree', base, j)
    {
      assert NodeSums(tree, base, j);
    }
  }

  lemma SetInner(tree: seq<real>, base: nat, i: nat)
    requires SumsExcept(tree, base, i) && 1 <= i < base
    ensures SumsExcept(tree[i := tree[2 * i] + tree[2 * i + 1]], base, i / 2)
  {
    var tree' := tree[i := tree[2 * i] + tree[2 * i + 1]];
    forall j | 1 <= j < base && j != i / 2
      ensures NodeSums(tree', base, j)
    {
      assert j != i ==> NodeSums(tree, base, j);
    }
  }
}
