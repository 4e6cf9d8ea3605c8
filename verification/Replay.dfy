/** The prioritised replay buffer (internal/intelligence/experience_buffer.go). */
module Replay {
  import opened Mods
  import opened Reals
  import opened SumTree

  /** `score` stands for |tanh(z)| of the experience's signals, computed elsewhere; `payload` for
      the states, actions and rewards that are only stored. */
  datatype Experience = Experience(done: bool, episode: int, regime: int, score: real, payload: int)

  const EMPTY := Experience(false, 0, 0, 0.0, 0)

  const MIN_PRIO := 0.0001

  function Priority(e: Experience): (p: real)
    ensures MIN_PRIO <= p && e.score <= p
  {
    if e.score < MIN_PRIO then MIN_PRIO else e.score
  }

  /** Whether the slot `k` places after position `size`, going round, holds a finished one. */
  predicate DoneAfter(data: seq<Experience>, size: nat, k: nat)
    requires 0 < |data|
  {
    data[Slot(size + k, |data|)].done
  }

  /** How far behind position `size` the first finished slot is, from `i` on; `|data|` if none. */
  function DoneOffset(data: seq<Experience>, size: nat, i: nat): (k: nat)
    requires 0 < |data| && i <= |data|
    ensures i <= k <= |data|
    ensures k < |data| ==> DoneAfter(data, size, k)
    ensures forall j | i <= j < k :: !DoneAfter(data, size, j)
    decreases |data| - i
  {
    if i == |data| || DoneAfter(data, size, i) then i else DoneOffset(data, size, i + 1)
  }

  /** The slot the next experience goes to. */
  function NextSlot(data: seq<Experience>, size: nat): (slot: nat)
    requires 0 < |data|
    ensures slot < |data|
  {
    if size < |data| then size
    else
      var k := DoneOffset(data, size, 0);
      if k < |data| then Slot(size + k, |data|) else Slot(size, |data|)
  }

  /** `slot` is the next free one; or, going round a full buffer from position `size`, the first
      finished one; or, when none is finished, the one at that position. */
  ghost predicate IsNext(data: seq<Experience>, size: nat, slot: nat)
    requires 0 < |data|
  {
    if size < |data| then slot == size
    else
      exists k :: 0 <= k < |data| && FoundAfter(data, size, k, slot)
  }

  /** `slot` lies `k` places after position `size`, and is the first finished one, or none is. */
  ghost predicate FoundAfter(data: seq<Experience>, size: nat, k: nat, slot: nat)
    requires 0 < |data|
  {
    && slot == Slot(size + k, |data|)
    && (if data[slot].done then forall j | 0 <= j < k :: !DoneAfter(data, size, j)
        else k == 0 && forall j | 0 <= j < |data| :: !data[j].done)
  }

  lemma NextSlotIsNext(data: seq<Experience>, size: nat)
    requires 0 < |data|
    ensures IsNext(data, size, NextSlot(data, size))
  {
    if |data| <= size {
      var k := DoneOffset(data, size, 0);
      if k < |data| {
        assert DoneAfter(data, size, k);
        assert FoundAfter(data, size, k, NextSlot(data, size));
      } else {
        forall j | 0 <= j < |data|
          ensures !data[j].done
        {
          var i := RoundVisits(size, |data|, j);
          assert !DoneAfter(data, size, i);
        }
        assert FoundAfter(data, size, 0, NextSlot(data, size));
      }
    }
  }

  /** There is exactly one such slot. */
  lemma NextOnce(data: seq<Experience>, size: nat, a: nat, b: nat)
    requires 0 < |data| && IsNext(data, size, a) && IsNext(data, size, b)
    ensures a == b
  {
    if |data| <= size {
      var i :| 0 <= i < |data| && FoundAfter(data, size, i, a);
      var j :| 0 <= j < |data| && FoundAfter(data, size, j, b);
      assert data[a].done ==> DoneAfter(data, size, i);
      assert data[b].done ==> DoneAfter(data, size, j);
    }
  }

  /** A full buffer overwrites a finished slot whenever there is one. */
  lemma FinishedSlotFirst(data: seq<Experience>, size: nat, slot: nat)
    requires 0 < |data| <= size && slot < |data| && data[slot].done
    ensures data[NextSlot(data, size)].done
  {
    var k := RoundVisits(size, |data|, slot);
    assert DoneAfter(data, size, k);
  }

  /** The slots among the first `n` that hold episode `e`. */
  function SlotsOf(data: seq<Experience>, n: nat, e: int): set<nat>
    requires n <= |data|
  {
    set k: nat | 0 <= k < n && data[k].episode == e
  }

  /** What leaf `k` of the tree must hold. */
  function LeafValue(data: seq<Experience>, n: nat, k: nat): real
    requires n <= |data|
  {
    if k < n then Priority(data[k]) else 0.0
  }

  ghost predicate LeavesMatch(tree: seq<real>, base: nat, data: seq<Experience>, n: nat)
    requires n <= |data|
  {
    |tree| == 2 * base && forall i | base <= i < 2 * base :: tree[i] == LeafValue(data, n, i - base)
  }

  /** The sum of the priorities of the first `k` slots. */
  function PrioritySum(data: seq<Experience>, k: nat): real
    requires k <= |data|
  {
    if k == 0 then 0.0 else PrioritySum(data, k - 1) + Priority(data[k - 1])
  }

  /** The prefix sums of the leaves are the prefix sums of the priorities of the slots. */
  lemma {:induction false} PrefixIsPrioritySum(tree: seq<real>, base: nat, data: seq<Experience>, n: nat, k: nat)
    requires n <= |data| && n <= base && LeavesMatch(tree, base, data, n) && k <= base
    ensures Prefix(tree, base, k) == PrioritySum(data, if k <= n then k else n)
  {
    if k > 0 {
      PrefixIsPrioritySum(tree, base, data, n, k - 1);
      assert tree[base + (k - 1)] == LeafValue(data, n, k - 1);
    }
  }

  /** Every leaf is at least zero, so the prefix sums grow exactly at the occupied slots. */
  lemma LeavesArePositive(tree: seq<real>, base: nat, data: seq<Experience>, n: nat)
    requires n <= |data| && LeavesMatch(tree, base, data, n)
    ensures LeavesNonNegative(tree, base)
    ensures forall k | 0 <= k < base :: Prefix(tree, base, k) < Prefix(tree, base, k + 1) <==> k < n
  {
    forall k | 0 <= k < base
      ensures Prefix(tree, base, k) < Prefix(tree, base, k + 1) <==> k < n
    {
      assert tree[base + k] == LeafValue(data, n, k);
    }
  }

  /** The slot drawn for `v`: its interval of summed priorities holds `v`. */
  predicate Draws(data: seq<Experience>, k: nat, v: real)
    requires k < |data|
  {
    PrioritySum(data, k) < v <= PrioritySum(data, k + 1)
  }

  lemma {:induction false} PrioritySumMonotone(data: seq<Experience>, j: nat, k: nat)
    requires j <= k <= |data|
    ensures PrioritySum(data, j) <= PrioritySum(data, k)
  {
    if j < k {
      PrioritySumMonotone(data, j, k - 1);
    }
  }

  /** No two slots are drawn for the same `v`, and the values that draw slot `k` make up an
      interval exactly as long as its priority. */
  lemma DrawsInProportion(data: seq<Experience>, j: nat, k: nat, v: real)
    requires j < |data| && k < |data| && Draws(data, j, v) && Draws(data, k, v)
    ensures j == k
    ensures PrioritySum(data, k + 1) - PrioritySum(data, k) == Priority(data[k])
  {
    if j < k {
      PrioritySumMonotone(data, j + 1, k);
    } else if k < j {
      PrioritySumMonotone(data, k + 1, j);
    }
  }

  type EpisodeIndex = map<int, set<nat>>

  function Listed(index: EpisodeIndex, e: int): set<nat> {
    if e in index then index[e] else {}
  }

  /** `delete(episodeSlots[old], slot)` unless `old` is 0, then the insertion for `e`. */
  function Reindex(index: EpisodeIndex, old_: int, e: int, slot: nat): EpisodeIndex {
    var removed := if old_ != 0 && old_ in index then index[old_ := index[old_] - {slot}] else index;
    removed[e := Listed(removed, e) + {slot}]
  }

  /** For every real episode the index lists exactly its slots. Slots given to episode 0 are never
      taken out again: it lists every slot that ever held it. */
  ghost predicate EpisodesMatch(index: EpisodeIndex, everZero: set<nat>, data: seq<Experience>, n: nat)
    requires n <= |data|
  {
    && (forall e | e != 0 :: Listed(index, e) == SlotsOf(data, n, e))
    && Listed(index, 0) == everZero && SlotsOf(data, n, 0) <= everZero
    && (forall k | n <= k < |data| :: data[k] == EMPTY)
  }

  // ---------------------------------------------------------------------------------------
  // Runs of insertions
  // ---------------------------------------------------------------------------------------

  datatype Contents = Contents(data: seq<Experience>, size: nat, index: EpisodeIndex)

  function Empty(capacity: nat): Contents {
    Contents(seq(capacity, _ => EMPTY), 0, map[])
  }

  /** What `Add` makes of the slots and the episode index. */
  function Added(c: Contents, e: Experience): (c': Contents)
    requires 0 < |c.data|
    ensures |c'.data| == |c.data|
  {
    var slot := NextSlot(c.data, c.size);
    Contents(c.data[slot := e], c.size + 1, Reindex(c.index, c.data[slot].episode, e.episode, slot))
  }

  /** The index lists exactly the slots that hold episode 0. */
  predicate ZeroExact(c: Contents) {
    Listed(c.index, 0) == SlotsOf(c.data, Kept(c.size, |c.data|), 0)
  }

  /** A full buffer is about to give a slot of episode 0 to another episode: the code then skips
      the delete. */
  predicate Forgets(c: Contents, e: Experience)
    requires 0 < |c.data|
  {
    |c.data| <= c.size && c.data[NextSlot(c.data, c.size)].episode == 0 && e.episode != 0
  }

  /** Exactly when an insertion makes an exact index stale for episode 0. */
  lemma ZeroStaysExactIff(c: Contents, e: Experience)
    requires 0 < |c.data| && ZeroExact(c)
    ensures ZeroExact(Added(c, e)) <==> !Forgets(c, e)
  {
    NextOccupied(c.data, c.size);
    var slot, n, c' := NextSlot(c.data, c.size), Kept(c.size, |c.data|), Added(c, e);
    var now := SlotsOf(c'.data, Kept(c'.size, |c'.data|), 0);
    assert now == SlotsOf(c.data, n, 0) - {slot} + if e.episode == 0 then {slot} else {};
    assert Listed(c'.index, 0) == Listed(c.index, 0) + if e.episode == 0 then {slot} else {};
    assert slot in SlotsOf(c.data, n, 0) <==> slot < n && c.data[slot].episode == 0;
  }

  function AddAll(c: Contents, es: seq<Experience>): (c': Contents)
    requires 0 < |c.data|
    ensures |c'.data| == |c.data|
  {
    if es == [] then c else Added(AddAll(c, es[..|es| - 1]), es[|es| - 1])
  }

  lemma AddAllStep(c: Contents, es: seq<Experience>, k: nat)
    requires 0 < |c.data| && k < |es|
    ensures AddAll(c, es[..k + 1]) == Added(AddAll(c, es[..k]), es[k])
  {
    assert es[..k + 1][..k] == es[..k];
  }

  /** Exact for episode 0 after each of the first `n` insertions. */
  predicate ExactThroughout(c: Contents, es: seq<Experience>, n: nat)
    requires 0 < |c.data| && n <= |es|
  {
    ZeroExact(AddAll(c, es[..n])) && (n > 0 ==> ExactThroughout(c, es, n - 1))
  }

  /** None of the first `n` insertions forgets. */
  predicate NeverForgets(c: Contents, es: seq<Experience>, n: nat)
    requires 0 < |c.data| && n <= |es|
  {
    n > 0 ==> NeverForgets(c, es, n - 1) && !Forgets(AddAll(c, es[..n - 1]), es[n - 1])
  }

  /** Over a run the index is exact for episode 0 all the time if and only if no insertion forgets. */
  lemma {:induction false} ExactThroughoutIff(c: Contents, es: seq<Experience>, n: nat)
    requires 0 < |c.data| && ZeroExact(c) && n <= |es|
    ensures ExactThroughout(c, es, n) <==> NeverForgets(c, es, n)
  {
    if n == 0 {
      assert es[..0] == [];
    } else {
      ExactThroughoutIff(c, es, n - 1);
      AddAllStep(c, es, n - 1);
      if ZeroExact(AddAll(c, es[..n - 1])) {
        ZeroStaysExactIff(AddAll(c, es[..n - 1]), es[n - 1]);
      }
    }
  }

  predicate NoneDone(es: seq<Experience>) {
    forall i | 0 <= i < |es| :: !es[i].done
  }

  lemma NextWithoutDone(data: seq<Experience>, size: nat)
    requires 0 < |data| && NoneDone(data)
    ensures NextSlot(data, size) == Slot(size, |data|)
  {
    NextSlotIsNext(data, size);
    if size < |data| {
      SlotIs(size, |data|, 0, size);
    }
  }

  /** As long as nothing finished is inserted the buffer is a ring: it holds exactly the last
      experiences, as many as fit, each in the slot of its position. */
  lemma {:induction false} HoldsTheLast(capacity: nat, es: seq<Experience>)
    requires 0 < capacity && NoneDone(es)
    ensures var c := AddAll(Empty(capacity), es);
      && c.size == |es| && |c.data| == capacity && NoneDone(c.data)
      && Contains(c.data, Slot(|es|, capacity), Kept(|es|, capacity), es)
  {
    if es == [] {
      SlotIs(0, capacity, 0, 0);
    } else {
      var before, e := es[..|es| - 1], es[|es| - 1];
      var c := AddAll(Empty(capacity), before);
      HoldsTheLast(capacity, before);
      NextWithoutDone(c.data, c.size);
      ContainsPush(c.data, Slot(|before|, capacity), Kept(|before|, capacity), before, e);
      StepOn(|before|, 1, capacity);
      assert es == before + [e];
    }
  }

  /** Whatever is inserted goes to the one slot described above, and nowhere else. */
  lemma AddedReplaces(c: Contents, e: Experience, slot: nat)
    requires 0 < |c.data| && IsNext(c.data, c.size, slot)
    ensures slot < |c.data| && Added(c, e).data == c.data[slot := e] && Added(c, e).size == c.size + 1
  {
    NextSlotIsNext(c.data, c.size);
    NextOnce(c.data, c.size, slot, NextSlot(c.data, c.size));
  }

  function Repeat(e: Experience, k: nat): seq<Experience> {
    seq(k, _ => e)
  }

  lemma {:induction false} OnlyZero(capacity: nat, zero: Experience, k: nat)
    requires 0 < capacity && zero.episode == 0
    ensures var c := AddAll(Empty(capacity), Repeat(zero, k));
      ZeroExact(c) && c.size == k && forall i | 0 <= i < capacity :: c.data[i].episode == 0
  {
    if k > 0 {
      OnlyZero(capacity, zero, k - 1);
      assert Repeat(zero, k)[..k - 1] == Repeat(zero, k - 1);
      ZeroStaysExactIff(AddAll(Empty(capacity), Repeat(zero, k - 1)), zero);
    }
  }

  /** From an empty buffer of any capacity: filled with episode 0, then one experience of another
      episode, and the index lists a slot that no longer holds episode 0. */
  lemma EpisodeZeroGoesStale(capacity: nat, zero: Experience, other: Experience)
    requires 0 < capacity && zero.episode == 0 && other.episode != 0
    ensures var c := AddAll(Empty(capacity), Repeat(zero, capacity) + [other]);
      exists slot :: slot in Listed(c.index, 0) && slot < capacity && c.data[slot] == other
  {
    var full, es := AddAll(Empty(capacity), Repeat(zero, capacity)), Repeat(zero, capacity) + [other];
    OnlyZero(capacity, zero, capacity);
    assert es[..|es| - 1] == Repeat(zero, capacity);
    var slot := NextSlot(full.data, capacity);
    assert slot in SlotsOf(full.data, capacity, 0);
    assert AddAll(Empty(capacity), es) == Added(full, other);
    assert slot in Listed(Added(full, other).index, 0) && Added(full, other).data[slot] == other;
  }

  lemma NextOccupied(data: seq<Experience>, size: nat)
    requires 0 < |data|
    ensures var n, slot := Kept(size, |data|), NextSlot(data, size);
      && slot <= n && (slot == n <==> size < |data|)
      && Kept(size + 1, |data|) == if slot == n then n + 1 else n
  {
  }

  lemma EpisodesKept(index: EpisodeIndex, everZero: set<nat>, data: seq<Experience>, size: nat, e: Experience)
    requires 0 < |data| && EpisodesMatch(index, everZero, data, Kept(size, |data|))
    ensures var slot := NextSlot(data, size);
      EpisodesMatch(Reindex(index, data[slot].episode, e.episode, slot),
                    if e.episode == 0 then everZero + {slot} else everZero,
                    data[slot := e], Kept(size + 1, |data|))
  {
    NextOccupied(data, size);
    var slot, n := NextSlot(data, size), Kept(size, |data|);
    var old_, data', n' := data[slot].episode, data[slot := e], Kept(size + 1, |data|);
    var index' := Reindex(index, old_, e.episode, slot);
    forall f
      ensures f != 0 ==> Listed(index', f) == SlotsOf(data', n', f)
    {
      if f != 0 {
        assert SlotsOf(data', n', f) == SlotsOf(data, n, f) - {slot} + if f == e.episode then {slot} else {};
        assert slot == n ==> old_ == 0;
        assert old_ != f ==> slot !in SlotsOf(data, n, f);
      }
    }
    assert SlotsOf(data', n', 0) <= SlotsOf(data, n, 0) + if e.episode == 0 then {slot} else {};
  }

  lemma LeavesKept(tree: seq<real>, base: nat, data: seq<Experience>, size: nat, e: Experience, tree': seq<real>)
    requires 0 < |data| <= base && LeavesMatch(tree, base, data, Kept(size, |data|))
    requires |tree'| == 2 * base
    requires tree'[base + NextSlot(data, size)] == Priority(e)
    requires forall i | base <= i < 2 * base && i != base + NextSlot(data, size) :: tree'[i] == tree[i]
    ensures LeavesMatch(tree', base, data[NextSlot(data, size) := e], Kept(size + 1, |data|))
  {
    NextOccupied(data, size);
  }

  class ExperienceBuffer {
    const capacity: nat
    const base: nat
    const data: array<Experience>
    const tree: array<real>
    var size: nat
    var lastPriority: real
    var episodeSlots: EpisodeIndex
    var regimeSlots: map<int, seq<nat>>

    ghost var everZero: set<nat>

    ghost predicate Shape()
      reads this
    {
      0 < capacity <= base && data.Length == capacity && tree.Length == 2 * base && IsPower(base)
    }

    /** The slots and the episode index. */
    ghost function Held(): Contents
      reads this, data
    {
      Contents(data[..], size, episodeSlots)
    }

    ghost predicate Valid()
      reads this, data, tree
    {
      && Shape()
      && IsSumTree(tree[..], base)
      && LeavesMatch(tree[..], base, data[..], Kept(size, capacity))
      && EpisodesMatch(episodeSlots, everZero, data[..], Kept(size, capacity))
    }

    constructor (cap: nat)
      requires 0 < cap
      ensures Valid() && capacity == cap && Held() == Empty(cap) && fresh(data) && fresh(tree)
      ensures base == 1 || base < 2 * cap
    {
      var b := 1;
      while b < cap
        invariant IsPower(b) && (b == 1 || b < 2 * cap)
        decreases cap - b
      {
        b := 2 * b;
      }
      capacity, base, size, lastPriority := cap, b, 0, 0.0;
      data := new Experience[cap](_ => EMPTY);
      tree := new real[2 * b](_ => 0.0);
      episodeSlots, regimeSlots, everZero := map[], map[], {};
    }

    /** `b.updateTree`: sets a leaf and repairs the sums on the way up. */
    method UpdateTree(idx: nat, p: real)
      requires Shape() && IsSumTree(tree[..], base) && idx < base
      modifies tree
      ensures IsSumTree(tree[..], base)
      ensures tree[base + idx] == Max(p, MIN_PRIO)
      ensures forall i | base <= i < 2 * base && i != base + idx :: tree[i] == old(tree[i])
    {
      var i := idx + base;
      SetLeaf(tree[..], base, i, Max(p, MIN_PRIO));
      tree[i] := Max(p, MIN_PRIO);
      i := i / 2;
      while i >= 1
        invariant 0 <= i < base
        invariant SumsExcept(tree[..], base, i)
        invariant tree[base + idx] == Max(p, MIN_PRIO)
        invariant forall k | base <= k < 2 * base && k != base + idx :: tree[k] == old(tree[k])
        decreases i
      {
        SetInner(tree[..], base, i);
        tree[i] := tree[2 * i] + tree[2 * i + 1];
        i := i / 2;
      }
    }

    /** `b.nextInsertIndex`. */
    method NextInsertIndex() returns (idx: nat)
      requires Shape()
      ensures idx == NextSlot(data[..], size) && IsNext(data[..], size, idx)
    {
      NextSlotIsNext(data[..], size);
      if size < capacity {
        return size;
      }
      for i := 0 to capacity
        invariant DoneOffset(data[..], size, 0) == DoneOffset(data[..], size, i)
      {
        if data[(size + i) % capacity].done {
          return (size + i) % capacity;
        }
      }
      idx := size % capacity;
    }

    /** The slot changes hands: the episode index forgets the old occupant and learns the new one. */
    method Place(idx: nat, e: Experience)
      requires Shape() && EpisodesMatch(episodeSlots, everZero, data[..], Kept(size, capacity))
      requires idx == NextSlot(data[..], size)
      modifies data, `episodeSlots, `everZero
      ensures data[..] == old(data[..])[idx := e]
      ensures EpisodesMatch(episodeSlots, everZero, data[..], Kept(size + 1, capacity))
      ensures episodeSlots == Reindex(old(episodeSlots), old(data[idx]).episode, e.episode, idx)
      ensures everZero == old(everZero) + if e.episode == 0 then {idx} else {}
    {
      EpisodesKept(episodeSlots, everZero, data[..], size, e);
      episodeSlots := Reindex(episodeSlots, data[idx].episode, e.episode, idx);
      data[idx] := e;
      everZero := if e.episode == 0 then everZero + {idx} else everZero;
    }

    /** The experience goes to the next slot and nowhere else; the tree, the episode index and the
        regime lists follow it. */
    method Add(e: Experience)
      requires Valid()
      modifies this, data, tree
      ensures Valid() && Held() == Added(old(Held()), e) && lastPriority == Priority(e)
      ensures e.regime in regimeSlots
        && regimeSlots == old(regimeSlots)[e.regime := regimeSlots[e.regime]]
        && regimeSlots[e.regime] == (if e.regime in old(regimeSlots) then old(regimeSlots)[e.regime] else [])
                                    + [NextSlot(old(data[..]), old(size))]
      ensures everZero == old(everZero) + if e.episode == 0 then {NextSlot(old(data[..]), old(size))} else {}
    {
      var idx := NextInsertIndex();
      Place(idx, e);
      lastPriority := Priority(e);
      regimeSlots := regimeSlots[e.regime := (if e.regime in regimeSlots then regimeSlots[e.regime] else []) + [idx]];
      UpdateTree(idx, Priority(e));
      LeavesKept(old(tree[..]), base, old(data[..]), size, e, tree[..]);
      size := size + 1;
    }

    method PriorityAt(idx: nat) returns (p: real)
      requires Valid() && idx < Kept(size, capacity)
      ensures p == Priority(data[idx])
    {
      p := tree[idx + base];
    }

    /** The root carries the sum of all priorities. */
    method Total() returns (total: real)
      requires Valid()
      ensures total == PrioritySum(data[..], Kept(size, capacity))
    {
      RootSum(tree[..], base);
      PrefixIsPrioritySum(tree[..], base, data[..], Kept(size, capacity), base);
      total := tree[1];
    }

    /** `b.sampleTree`: the slot whose interval of prefix sums holds `v`. */
    method SampleTree(v: real) returns (idx: nat)
      requires Valid() && 0 < size && 0.0 <= v <= tree[1]
      ensures idx < Kept(size, capacity)
      ensures v > 0.0 ==> Draws(data[..], idx, v)
      ensures v == 0.0 ==> idx == 0
    {
      ghost var t := tree[..];
      LeavesArePositive(t, base, data[..], Kept(size, capacity));
      WalkStarts(t, base, v);
      var i: nat, rest := 1, v;
      ghost var lo: nat, width: nat := 0, base;
      while i < base
        invariant Walking(t, base, v, i, lo, width, rest)
        decreases width
      {
        WalkStep(t, base, v, i, lo, width, rest);
        if rest <= tree[2 * i] {
          i := 2 * i;
        } else {
          rest := rest - tree[2 * i];
          i, lo := 2 * i + 1, lo + width / 2;
        }
        width := width / 2;
      }
      WalkEnds(t, base, v, i, lo, width, rest);
      PrefixIsPrioritySum(t, base, data[..], Kept(size, capacity), lo);
      PrefixIsPrioritySum(t, base, data[..], Kept(size, capacity), lo + 1);
      idx := i - base;
    }
  }
}
