/** Sorting a set by a strict total order, as the code sorts the keys of its maps. */
module Sorting {

  /** `before` is a strict total order. */
  ghost predicate IsOrdering<T(!new)>(before: (T, T) -> bool) {
    && (forall x, y :: !(before(x, y) && before(y, x)))
    && (forall x, y, z :: before(x, y) && before(y, z) ==> before(x, z))
    && (forall x, y :: x != y ==> before(x, y) || before(y, x))
  }

  predicate InOrder<T>(s: seq<T>, before: (T, T) -> bool) {
    forall i, j | 0 <= i < j < |s| :: before(s[i], s[j])
  }

  /** `s` lists the members of `keys` in order. */
  ghost predicate Sorts<T(!new)>(s: seq<T>, keys: set<T>, before: (T, T) -> bool) {
    InOrder(s, before) && forall k :: k in s <==> k in keys
  }

  lemma {:induction false} LeastExists<T(!new)>(keys: set<T>, before: (T, T) -> bool) returns (least: T)
    requires keys != {} && IsOrdering(before)
    ensures least in keys && forall k <- keys :: k == least || before(least, k)
    decreases keys
  {
    least :| least in keys;
    if keys != {least} {
      var first := least;
      var rest := LeastExists(keys - {least}, before);
      if before(rest, least) {
        least := rest;
      }
      assert forall k | k in keys && k != first :: k in keys - {first};
    }
  }

  method Sort<T(!new, ==)>(keys: set<T>, before: (T, T) -> bool) returns (s: seq<T>)
    requires IsOrdering(before)
    ensures Sorts(s, keys, before)
  {
    s := [];
    var todo := keys;
    while todo != {}
      invariant todo <= keys && Sorts(s, keys - todo, before)
      invariant forall x, y | x in s && y in todo :: before(x, y)
      decreases todo
    {
      ghost var least := LeastExists(todo, before);
      var k :| k in todo && forall o <- todo :: o == k || before(k, o);
      s, todo := s + [k], todo - {k};
    }
    assert keys - todo == keys;
  }

  lemma HasMember<T>(s: seq<T>)
    requires s != []
    ensures exists k :: k in s
  {
    assert s[0] in s;
  }

  /** There is only one such list. */
  lemma {:induction false} SortedOnce<T(!new)>(x: seq<T>, y: seq<T>, before: (T, T) -> bool)
    requires IsOrdering(before) && InOrder(x, before) && InOrder(y, before) && forall k :: k in x <==> k in y
    ensures x == y
    decreases |x|
  {
    if x == [] {
      if y != [] {
        HasMember(y);
      }
    } else {
      assert x[0] in y && y[0] in x;
      forall k
        ensures k in x[1..] <==> k in x && k != x[0]
        ensures k in y[1..] <==> k in y && k != y[0]
      {
        if k in x && k != x[0] {
          var i :| 0 <= i < |x| && x[i] == k;
          assert x[1..][i - 1] == k;
        }
        if k in y && k != y[0] {
          var i :| 0 <= i < |y| && y[i] == k;
          assert y[1..][i - 1] == k;
        }
      }
      SortedOnce(x[1..], y[1..], before);
      assert x == [x[0]] + x[1..] && y == [y[0]] + y[1..];
    }
  }
}
