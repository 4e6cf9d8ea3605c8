/** Remainders and ring buffers. */
module Mods {

  /** Slot `x` of a ring of `n` slots. */
  function Slot(x: nat, n: nat): (s: nat)
    requires 0 < n
    ensures s < n
  {
    x % n
  }

  lemma MulAtLeast(d: int, n: nat)
    requires 1 <= d
    ensures n <= d * n
  {
  }

  /** The remainder is determined by the division identity. */
  lemma SlotIs(x: nat, n: nat, q: nat, r: nat)
    requires r < n && x == q * n + r
    ensures Slot(x, n) == r
  {
    var q', r' := x / n, x % n;
    assert x == q' * n + r';
    assert (q - q') * n == r' - r;
    assert (q' - q) * n == r - r';
    if q' < q {
      MulAtLeast(q - q', n);
    } else if q < q' {
      MulAtLeast(q' - q, n);
    }
  }

  lemma Split(x: nat, n: nat)
    requires 0 < n
    ensures x == (x / n) * n + Slot(x, n)
  {
  }

  /** Going once round comes back to the same slot. */
  lemma OnceRound(x: nat, n: nat)
    requires 0 < n
    ensures Slot(x + n, n) == Slot(x, n)
  {
    Split(x, n);
    assert (x / n + 1) * n == (x / n) * n + n;
    SlotIs(x + n, n, x / n + 1, Slot(x, n));
  }

  /** Stepping on from the slot is stepping on from the position. */
  lemma StepOn(x: nat, k: nat, n: nat)
    requires 0 < n
    ensures Slot(Slot(x, n) + k, n) == Slot(x + k, n)
  {
    Split(x, n);
    var y := Slot(x, n) + k;
    Split(y, n);
    assert (x / n + y / n) * n == (x / n) * n + (y / n) * n;
    SlotIs(x + k, n, x / n + y / n, Slot(y, n));
  }

  /** Fewer than `n` consecutive positions have different slots. */
  lemma SlotsDiffer(x: nat, y: nat, n: nat)
    requires x < y < x + n
    ensures Slot(x, n) != Slot(y, n)
  {
    Split(x, n);
    Split(y, n);
    if Slot(x, n) == Slot(y, n) {
      assert (y / n - x / n) * n == y - x;
      if y / n > x / n {
        MulAtLeast(y / n - x / n, n);
      }
    }
  }

  /** Going round from any position visits every slot. */
  lemma RoundVisits(x: nat, n: nat, slot: nat) returns (k: nat)
    requires slot < n
    ensures k < n && Slot(x + k, n) == slot
  {
    var r := Slot(x, n);
    k := if r <= slot then slot - r else slot - r + n;
    StepOn(x, k, n);
    if r <= slot {
      SlotIs(slot, n, 0, slot);
    } else {
      SlotIs(slot, n, 0, slot);
      OnceRound(slot, n);
    }
  }

  // ---------------------------------------------------------------------------------------
  // A ring as the end of an unbounded log
  // ---------------------------------------------------------------------------------------

  function Kept(total: nat, cap: nat): (n: nat)
    ensures n <= total && n <= cap
  {
    if total < cap then total else cap
  }

  /** A ring that is next written at `next` and holds `n` entries contains the last `n` entries of
      `log`, each in the slot of its position. */
  ghost predicate Contains<T>(ring: seq<T>, next: nat, n: nat, log: seq<T>) {
    && 0 < |ring| && next == Slot(|log|, |ring|) && n == Kept(|log|, |ring|)
    && forall j | |log| - n <= j < |log| :: ring[Slot(j, |ring|)] == log[j]
  }

  lemma ContainsPush<T>(ring: seq<T>, next: nat, n: nat, log: seq<T>, x: T)
    requires Contains(ring, next, n, log)
    ensures Contains(ring[next := x], Slot(next + 1, |ring|), Kept(|log| + 1, |ring|), log + [x])
  {
    var cap, log', ring' := |ring|, log + [x], ring[next := x];
    StepOn(|log|, 1, cap);
    forall j | |log'| - Kept(|log'|, cap) <= j < |log'|
      ensures ring'[Slot(j, cap)] == log'[j]
    {
      if j < |log| {
        SlotsDiffer(j, |log|, cap);
        assert ring[Slot(j, cap)] == log[j];
      }
    }
  }

  /** The entry `back` places before the next one, counted from 1. */
  lemma ContainsAt<T>(ring: seq<T>, next: nat, n: nat, log: seq<T>, back: nat)
    requires Contains(ring, next, n, log) && 1 <= back <= n
    ensures ring[Slot(next + |ring| - back, |ring|)] == log[|log| - back]
  {
    StepOn(|log|, |ring| - back, |ring|);
    OnceRound(|log| - back, |ring|);
  }
}
