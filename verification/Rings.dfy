/** Two ring buffers that stand for the end of an unbounded log: the audit log
    (internal/security/security.go), read oldest first, and the regime memory
    (internal/autopilot/regime_memory.go), read newest first. */
module Rings {
  import opened Mods
  import opened Reals

  // ---------------------------------------------------------------------------------------
  // Audit log
  // ---------------------------------------------------------------------------------------

  datatype AuditEvent = AuditEvent(time: int, ip: string, path: string, verb: string, event: string, detail: string)

  const BLANK := AuditEvent(0, "", "", "", "", "")

  class AuditLogger {
    const cap: nat
    const buf: array<AuditEvent>
    var head: nat
    var size: nat
    ghost var log: seq<AuditEvent>

    ghost predicate Valid()
      reads this, buf
    {
      buf.Length == cap && Contains(buf[..], head, size, log)
    }

    constructor (bufSize: nat)
      requires 0 < bufSize
      ensures Valid() && cap == bufSize && log == [] && fresh(buf)
    {
      cap, head, size, log := bufSize, 0, 0, [];
      buf := new AuditEvent[bufSize](_ => BLANK);
    }

    method Log(e: AuditEvent, now: int)
      requires Valid()
      modifies this, buf
      ensures Valid() && log == old(log) + [e.(time := now)]
    {
      ContainsPush(buf[..], head, size, log, e.(time := now));
      buf[head] := e.(time := now);
      head := (head + 1) % cap;
      if size < cap {
        size := size + 1;
      }
      log := log + [e.(time := now)];
    }

    /** The last `n` events of the whole log, oldest first, as far as they are still kept. */
    method Recent(n: nat) returns (out: seq<AuditEvent>)
      requires Valid()
      ensures |out| == (if n < Kept(|log|, cap) then n else Kept(|log|, cap))
      ensures out == log[|log| - |out|..]
    {
      var m := if n > size then size else n;
      out := [];
      for i := 0 to m
        invariant |out| == i && forall j | 0 <= j < i :: out[j] == log[|log| - m + j]
      {
        ContainsAt(buf[..], head, size, log, m - i);
        var idx := Slot(head + cap - (m - i), cap);
        out := out + [buf[idx]];
      }
    }
  }

  // ---------------------------------------------------------------------------------------
  // Regime memory
  // ---------------------------------------------------------------------------------------

  /** `load` stands for norm(Backlog), the log-compressed backlog in [0, 1). */
  datatype MemoryEntry =
    MemoryEntry(instability: real, confidence: real, load: real, workers: real, action: string)

  const NOTHING := MemoryEntry(0.0, 0.0, 0.0, 0.0, "")

  /** The `i`-th newest entry. */
  function Newest(log: seq<MemoryEntry>, i: nat): MemoryEntry
    requires i < |log|
  {
    log[|log| - 1 - i]
  }

  function Decay(i: nat, n: nat): (w: real)
    requires 0 < n
    ensures 0.0 < w <= 1.0
  {
    var x := i as real / n as real;
    assert 0.0 <= x;
    var d := 1.0 + 2.5 * x;
    assert 1.0 / d * d == 1.0;
    assert 1.0 / d <= 1.0 by { QuotientAtMostOne(1.0, d); }
    1.0 / d
  }

  lemma QuotientAtMostOne(x: real, d: real)
    requires 0.0 <= x <= d && 0.0 < d
    ensures 0.0 <= x / d <= 1.0
  {
    var q := x / d;
    assert q * d == x;
    if q < 0.0 {
      MulStrict(q, 0.0, d);
    }
    if 1.0 < q {
      MulStrict(1.0, q, d);
    }
  }

  function Clamp01(x: real): real {
    if x < 0.0 then 0.0 else if x > 1.0 then 1.0 else x
  }

  // What the scores mean, on a log whose `n` newest entries are looked at

  predicate Acted(e: MemoryEntry) {
    e.action == "scale_up" || e.action == "scale_down"
  }

  /** Mean change per step, over the four entries that follow the action, of one signal. */
  function Response(now: real, later: real): real {
    (later - now) / 4.0
  }

  /** The score of the action of the `i`-th newest entry, in [0, 1]. The code negates the expected
      direction (down after scale_up, up after scale_down), so a response in the opposite direction
      scores above one half: see EffectAboveHalfIff. */
  function Effect(log: seq<MemoryEntry>, i: nat): (e: real)
    requires 4 <= i < |log|
    ensures 0.0 <= e <= 1.0
  {
    var a, b := Newest(log, i), Newest(log, i - 4);
    var inst, load := Response(a.instability, b.instability), Response(a.load, b.load);
    if a.action == "scale_up" then Clamp01((0.7 * inst + 0.3 * load + 1.0) / 2.0)
    else Clamp01((1.0 - 0.7 * inst - 0.3 * load) / 2.0)
  }

  /** How far instability and load, mixed 70 to 30, moved over the four entries after the action. */
  function Drift(log: seq<MemoryEntry>, i: nat): real
    requires 4 <= i < |log|
  {
    var a, b := Newest(log, i), Newest(log, i - 4);
    0.7 * (b.instability - a.instability) + 0.3 * (b.load - a.load)
  }

  /** The movement against the direction the action was expected to bring. */
  function Setback(log: seq<MemoryEntry>, i: nat): real
    requires 4 <= i < |log|
  {
    if Newest(log, i).action == "scale_up" then Drift(log, i) else -Drift(log, i)
  }

  /** Exactly when an action scores above one half: scale_up when the signals rose after it,
      scale_down when they fell. */
  lemma EffectAboveHalfIff(log: seq<MemoryEntry>, i: nat)
    requires 4 <= i < |log|
    ensures Newest(log, i).action == "scale_up" ==> (Effect(log, i) > 0.5 <==> Drift(log, i) > 0.0)
    ensures Newest(log, i).action == "scale_down" ==> (Effect(log, i) > 0.5 <==> Drift(log, i) < 0.0)
    ensures Effect(log, i) == 0.5 <==> Drift(log, i) == 0.0
    ensures -4.0 <= Drift(log, i) <= 4.0 ==> Effect(log, i) == 0.5 + Setback(log, i) / 8.0
  {
    var a, b := Newest(log, i), Newest(log, i - 4);
    var inst, load := Response(a.instability, b.instability), Response(a.load, b.load);
    assert 0.7 * inst + 0.3 * load == Drift(log, i) / 4.0;
  }

  /** Summed weights of the actions among the entries 4 to k - 1. */
  function ActionWeight(log: seq<MemoryEntry>, n: nat, k: nat): (w: real)
    requires 4 <= k <= n <= |log|
    ensures 0.0 <= w
  {
    if k == 4 then 0.0
    else ActionWeight(log, n, k - 1) + if Acted(Newest(log, k - 1)) then Decay(k - 1, n) else 0.0
  }

  function EffectSum(log: seq<MemoryEntry>, n: nat, k: nat): (s: real)
    requires 4 <= k <= n <= |log|
  {
    if k == 4 then 0.0
    else
      var term := if Acted(Newest(log, k - 1)) then Times(Decay(k - 1, n), Effect(log, k - 1)) else 0.0;
      EffectSum(log, n, k - 1) + term
  }

  /** The weighted mean of the effects of the actions; 0.5 on a cold start, 1 without actions. */
  function Effectiveness(log: seq<MemoryEntry>, n: nat): real
    requires n <= |log|
  {
    if n < 6 then 0.5
    else if ActionWeight(log, n, n - 1) == 0.0 then 1.0
    else EffectSum(log, n, n - 1) / ActionWeight(log, n, n - 1)
  }

  /** The weighted setbacks of the actions among the entries 4 to k - 1. */
  function SetbackSum(log: seq<MemoryEntry>, n: nat, k: nat): real
    requires 4 <= k <= n <= |log|
  {
    if k == 4 then 0.0
    else
      var term := if Acted(Newest(log, k - 1)) then Times(Decay(k - 1, n), Setback(log, k - 1)) else 0.0;
      SetbackSum(log, n, k - 1) + term
  }

  /** No action among the entries 4 to k - 1 moved the signals so far that its score is clamped. */
  predicate Unclamped(log: seq<MemoryEntry>, k: nat)
    requires 4 <= k <= |log|
  {
    forall i | 4 <= i < k :: Acted(Newest(log, i)) ==> -4.0 <= Drift(log, i) <= 4.0
  }

  lemma WeightedEffect(w: real, x: real)
    ensures Times(w, 0.5 + x / 8.0) == w / 2.0 + Times(w, x) / 8.0
  {
  }

  lemma {:induction false} EffectSumIs(log: seq<MemoryEntry>, n: nat, k: nat)
    requires 4 <= k <= n <= |log| && Unclamped(log, k)
    ensures EffectSum(log, n, k) == ActionWeight(log, n, k) / 2.0 + SetbackSum(log, n, k) / 8.0
  {
    if k > 4 {
      EffectSumIs(log, n, k - 1);
      EffectAboveHalfIff(log, k - 1);
      WeightedEffect(Decay(k - 1, n), Setback(log, k - 1));
    }
  }

  lemma HalfShare(s: real, w: real)
    requires 0.0 < w
    ensures s / w > 0.5 <==> s > w / 2.0
    ensures s / w < 0.5 <==> s < w / 2.0
  {
    var q := s / w;
    assert q * w == s && 0.5 * w == w / 2.0;
    if q > 0.5 {
      MulStrict(0.5, q, w);
    } else if q < 0.5 {
      MulStrict(q, 0.5, w);
    }
  }

  /** Exactly when the effectiveness of a log with actions is above or below one half: when the
      signals moved, by recency-weighted sum, against or with what the actions were meant to do. */
  lemma EffectivenessAboveHalfIff(log: seq<MemoryEntry>, n: nat)
    requires 6 <= n <= |log| && ActionWeight(log, n, n - 1) != 0.0 && Unclamped(log, n - 1)
    ensures Effectiveness(log, n) > 0.5 <==> SetbackSum(log, n, n - 1) > 0.0
    ensures Effectiveness(log, n) < 0.5 <==> SetbackSum(log, n, n - 1) < 0.0
  {
    EffectSumIs(log, n, n - 1);
    HalfShare(EffectSum(log, n, n - 1), ActionWeight(log, n, n - 1));
  }

  /** The action brought no movement against the expected direction. */
  predicate Helped(log: seq<MemoryEntry>, i: nat)
    requires 4 <= i < |log|
  {
    Acted(Newest(log, i)) ==> Setback(log, i) <= 0.0
  }

  lemma HelpedScoresLow(log: seq<MemoryEntry>, i: nat)
    requires 4 <= i < |log| && Acted(Newest(log, i)) && Helped(log, i)
    ensures Effect(log, i) <= 0.5
  {
    EffectAboveHalfIff(log, i);
  }

  lemma HalfWeight(w: real, x: real)
    requires 0.0 <= w && x <= 0.5
    ensures Times(w, x) <= w / 2.0
  {
    MulMono(x, 0.5, w);
  }

  lemma {:induction false} HelpScoresLow(log: seq<MemoryEntry>, n: nat, k: nat)
    requires 4 <= k <= n <= |log| && forall i | 4 <= i < k :: Helped(log, i)
    ensures EffectSum(log, n, k) <= ActionWeight(log, n, k) / 2.0
  {
    if k > 4 {
      HelpScoresLow(log, n, k - 1);
      assert Helped(log, k - 1);
      if Acted(Newest(log, k - 1)) {
        HelpedScoresLow(log, k - 1);
        HalfWeight(Decay(k - 1, n), Effect(log, k - 1));
      }
    }
  }

  /** Actions that all did what they were meant to do score at most one half, clamped or not. */
  lemma HelpfulActionsScoreLow(log: seq<MemoryEntry>, n: nat)
    requires 6 <= n <= |log| && ActionWeight(log, n, n - 1) != 0.0
    requires forall i | 4 <= i < n - 1 :: Helped(log, i)
    ensures Effectiveness(log, n) <= 0.5
  {
    HelpScoresLow(log, n, n - 1);
    HalfShare(EffectSum(log, n, n - 1), ActionWeight(log, n, n - 1));
  }

  lemma WeightedInRange(w: real, x: real)
    requires 0.0 <= w && 0.0 <= x <= 1.0
    ensures 0.0 <= Times(w, x) <= w
  {
    MulMono(x, 1.0, w);
    TimesNonNegative(w, x);
  }

  lemma {:induction false} EffectSumInRange(log: seq<MemoryEntry>, n: nat, k: nat)
    requires 4 <= k <= n <= |log|
    ensures 0.0 <= EffectSum(log, n, k) <= ActionWeight(log, n, k)
  {
    if k > 4 {
      EffectSumInRange(log, n, k - 1);
      WeightedInRange(Decay(k - 1, n), Effect(log, k - 1));
    }
  }

  /** The weighted mean is a mean: it needs no clamping. */
  lemma EffectivenessInRange(log: seq<MemoryEntry>, n: nat)
    requires n <= |log|
    ensures 0.0 <= Effectiveness(log, n) <= 1.0
  {
    if n >= 6 && ActionWeight(log, n, n - 1) != 0.0 {
      EffectSumInRange(log, n, n - 1);
      QuotientAtMostOne(EffectSum(log, n, n - 1), ActionWeight(log, n, n - 1));
    }
  }

  /** The sum of the weights of the entries 2 to k - 1 for which `marks` holds. */
  function Marked(log: seq<MemoryEntry>, n: nat, k: nat, marks: nat -> bool): (w: real)
    requires 2 <= k <= n
    ensures 0.0 <= w && (k > 2 && marks(k - 1) ==> 0.0 < w)
  {
    if k == 2 then 0.0
    else Marked(log, n, k - 1, marks) + if marks(k - 1) then Decay(k - 1, n) else 0.0
  }

  lemma {:induction false} MarkedAtMostAll(log: seq<MemoryEntry>, n: nat, k: nat, marks: nat -> bool)
    requires 2 <= k <= n
    ensures Marked(log, n, k, marks) <= Marked(log, n, k, EveryMark())
  {
    if k > 2 {
      MarkedAtMostAll(log, n, k - 1, marks);
    }
  }

  /** The instability turned around at entry `i - 1`. */
  predicate TurnsAround(log: seq<MemoryEntry>, i: nat)
    requires 2 <= i < |log|
  {
    var a, b, c := Newest(log, i).instability, Newest(log, i - 1).instability, Newest(log, i - 2).instability;
    (b < a && b < c) || (a < b && c < b)
  }

  function TurnMarks(log: seq<MemoryEntry>): nat -> bool {
    (i: nat) => 2 <= i < |log| && TurnsAround(log, i)
  }

  function EveryMark(): nat -> bool {
    (i: nat) => true
  }

  function FlipMarks(log: seq<MemoryEntry>): nat -> bool {
    (i: nat) => 1 <= i < |log| && Newest(log, i - 1).action != Newest(log, i).action
  }

  function InstabilitySum(log: seq<MemoryEntry>, k: nat): real
    requires k <= |log|
  {
    if k == 0 then 0.0 else InstabilitySum(log, k - 1) + Newest(log, k - 1).instability
  }

  /** The weighted square deviations of the entries 1 to k - 2. */
  function Spread(log: seq<MemoryEntry>, n: nat, k: nat, mean: real): (s: real)
    requires 2 <= k <= n <= |log|
    ensures 0.0 <= s
  {
    if k == 2 then 0.0
    else
      var dev := Newest(log, k - 2).instability - mean;
      Spread(log, n, k - 1, mean) + WeightedSquare(Decay(k - 1, n), dev)
  }

  function WeightedSquare(w: real, dev: real): (s: real)
    requires 0.0 <= w
    ensures 0.0 <= s
  {
    assert 0.0 <= dev * dev;
    TimesNonNegative(w, dev * dev);
    Times(w, dev * dev)
  }

  /** 40% share of weight on turns, 40% compressed spread, 20% share of weight on action changes. */
  function Oscillation(log: seq<MemoryEntry>, n: nat): real
    requires n <= |log|
  {
    if n < 6 then 0.0
    else
      var all := Marked(log, n, n, EveryMark());
      var spread := Spread(log, n, n, InstabilitySum(log, n) / n as real);
      Blend(Marked(log, n, n, TurnMarks(log)) / all, spread / (spread + 1.0),
            Marked(log, n, n, FlipMarks(log)) / all)
  }

  function Blend(z: real, v: real, a: real): real {
    0.4 * z + 0.4 * v + 0.2 * a
  }

  /** The score is in [0, 1] before it is clamped. */
  lemma OscillationInRange(log: seq<MemoryEntry>, n: nat)
    requires n <= |log|
    ensures 0.0 <= Oscillation(log, n) <= 1.0
  {
    if n >= 6 {
      var all := Marked(log, n, n, EveryMark());
      var spread := Spread(log, n, n, InstabilitySum(log, n) / n as real);
      MarkedAtMostAll(log, n, n, TurnMarks(log));
      MarkedAtMostAll(log, n, n, FlipMarks(log));
      QuotientAtMostOne(Marked(log, n, n, TurnMarks(log)), all);
      QuotientAtMostOne(Marked(log, n, n, FlipMarks(log)), all);
      QuotientAtMostOne(spread, spread + 1.0);
    }
  }

  /** Newer entries weigh more, the newest one exactly one: the weight falls with the age as one over
      one plus two and a half times its share of the log. */
  lemma NewerWeighsMore(i: nat, j: nat, n: nat)
    requires 0 < n && i < j
    ensures Decay(j, n) < Decay(i, n) && Decay(0, n) == 1.0
    ensures Times(Decay(j, n), n as real + 2.5 * j as real) == n as real
  {
    WeightByAge(j as real, n as real);
    ShareGrows(i as real, j as real, n as real);
    var x, y := i as real / n as real, j as real / n as real;
    assert 0.0 <= x < y;
    ReciprocalFalls(1.0 + 2.5 * x, 1.0 + 2.5 * y);
    assert 0 as real / n as real == 0.0;
  }

  lemma WeightByAge(x: real, n: real)
    requires 0.0 < n && 0.0 <= x
    ensures var d := 1.0 + 2.5 * (x / n); 0.0 < d && Times(1.0 / d, n + 2.5 * x) == n
  {
    var q := x / n;
    assert q * n == x;
    if q < 0.0 {
      MulStrict(q, 0.0, n);
    }
    var d := 1.0 + 2.5 * q;
    var w := 1.0 / d;
    assert w * d == 1.0;
    assert n + 2.5 * x == d * n;
    assert w * (d * n) == (w * d) * n;
  }

  lemma ShareGrows(x: real, y: real, n: real)
    requires 0.0 < n && 0.0 <= x < y
    ensures 0.0 <= x / n < y / n
  {
    var p, q := x / n, y / n;
    assert p * n == x && q * n == y;
    if q <= p {
      MulMono(q, p, n);
    }
    if p < 0.0 {
      MulStrict(p, 0.0, n);
    }
  }

  lemma ReciprocalFalls(x: real, y: real)
    requires 0.0 < x < y
    ensures 1.0 / y < 1.0 / x
  {
    var p, q := 1.0 / x, 1.0 / y;
    assert p * x == 1.0 && q * y == 1.0;
    assert 0.0 < q by {
      if q <= 0.0 {
        MulMono(q, 0.0, y);
      }
    }
    if p <= q {
      MulMono(p, q, x);
      MulStrict(x, y, q);
    }
  }

  lemma {:induction false} MarkedNone(log: seq<MemoryEntry>, n: nat, k: nat, marks: nat -> bool)
    requires 2 <= k <= n && forall i: nat | 2 <= i < k :: !marks(i)
    ensures Marked(log, n, k, marks) == 0.0
  {
    if k > 2 {
      MarkedNone(log, n, k - 1, marks);
    }
  }

  lemma {:induction false} MarkedEvery(log: seq<MemoryEntry>, n: nat, k: nat, marks: nat -> bool)
    requires 2 <= k <= n && forall i: nat | 2 <= i < k :: marks(i)
    ensures Marked(log, n, k, marks) == Marked(log, n, k, EveryMark())
  {
    if k > 2 {
      MarkedEvery(log, n, k - 1, marks);
    }
  }

  /** The instability of the `k` newest entries is `c`. */
  predicate Steady(log: seq<MemoryEntry>, k: nat, c: real)
    requires k <= |log|
  {
    forall i | 0 <= i < k :: Newest(log, i).instability == c
  }

  lemma {:induction false} SteadySum(log: seq<MemoryEntry>, k: nat, c: real)
    requires k <= |log| && Steady(log, k, c)
    ensures InstabilitySum(log, k) == k as real * c
  {
    if k > 0 {
      SteadySum(log, k - 1, c);
      assert k as real * c == (k - 1) as real * c + c;
    }
  }

  lemma {:induction false} SteadySpread(log: seq<MemoryEntry>, n: nat, k: nat, c: real)
    requires 2 <= k <= n <= |log| && Steady(log, n, c)
    ensures Spread(log, n, k, c) == 0.0
  {
    if k > 2 {
      SteadySpread(log, n, k - 1, c);
      assert Times(Decay(k - 1, n), 0.0 * 0.0) == 0.0;
    }
  }

  lemma SteadyParts(log: seq<MemoryEntry>, n: nat, c: real)
    requires 6 <= n <= |log| && Steady(log, n, c)
    ensures Marked(log, n, n, TurnMarks(log)) == 0.0
    ensures Spread(log, n, n, InstabilitySum(log, n) / n as real) == 0.0
  {
    MarkedNone(log, n, n, TurnMarks(log));
    SteadySum(log, n, c);
    assert n as real * c / n as real == c;
    SteadySpread(log, n, n, c);
  }

  lemma ShareOf(x: real, all: real)
    requires 0.0 < all
    ensures x == 0.0 ==> x / all == 0.0
    ensures x == all ==> x / all == 1.0
  {
  }

  /** A log of constant instability and one action scores nothing; when every action differs from the
      one before, it scores exactly the share of the actions. */
  lemma SteadyScores(log: seq<MemoryEntry>, n: nat, c: real)
    requires 6 <= n <= |log| && Steady(log, n, c)
    ensures (forall i: nat | 2 <= i < n :: !FlipMarks(log)(i)) ==> Oscillation(log, n) == 0.0
    ensures (forall i: nat | 2 <= i < n :: FlipMarks(log)(i)) ==> Oscillation(log, n) == 0.2
  {
    var all := Marked(log, n, n, EveryMark());
    SteadyParts(log, n, c);
    ShareOf(Marked(log, n, n, TurnMarks(log)), all);
    ShareOf(Marked(log, n, n, FlipMarks(log)), all);
    if forall i: nat | 2 <= i < n :: !FlipMarks(log)(i) {
      MarkedNone(log, n, n, FlipMarks(log));
    }
    if forall i: nat | 2 <= i < n :: FlipMarks(log)(i) {
      MarkedEvery(log, n, n, FlipMarks(log));
    }
  }

  /** A log that turns around at every entry scores the share of the turns and what its spread adds,
      and the share of the actions on top when these change every time too. */
  lemma TurningScores(log: seq<MemoryEntry>, n: nat)
    requires 6 <= n <= |log| && forall i: nat | 2 <= i < n :: TurnMarks(log)(i)
    ensures var spread := Spread(log, n, n, InstabilitySum(log, n) / n as real);
      var score := 0.4 + 0.4 * (spread / (spread + 1.0));
      && 0.4 <= score <= 0.8
      && ((forall i: nat | 2 <= i < n :: !FlipMarks(log)(i)) ==> Oscillation(log, n) == score)
      && ((forall i: nat | 2 <= i < n :: FlipMarks(log)(i)) ==> Oscillation(log, n) == score + 0.2)
  {
    var all := Marked(log, n, n, EveryMark());
    var spread := Spread(log, n, n, InstabilitySum(log, n) / n as real);
    MarkedEvery(log, n, n, TurnMarks(log));
    ShareOf(Marked(log, n, n, TurnMarks(log)), all);
    ShareOf(Marked(log, n, n, FlipMarks(log)), all);
    QuotientAtMostOne(spread, spread + 1.0);
    if forall i: nat | 2 <= i < n :: !FlipMarks(log)(i) {
      MarkedNone(log, n, n, FlipMarks(log));
    }
    if forall i: nat | 2 <= i < n :: FlipMarks(log)(i) {
      MarkedEvery(log, n, n, FlipMarks(log));
    }
  }

  /** The four sums of the loop, before entry `i` is looked at. */
  ghost predicate Summed(log: seq<MemoryEntry>, n: nat, i: nat, mean: real, turns: real, spread: real,
                         flips: real, all: real)
    requires 2 <= i <= n <= |log|
  {
    && turns == Marked(log, n, i, TurnMarks(log)) && spread == Spread(log, n, i, mean)
    && flips == Marked(log, n, i, FlipMarks(log)) && all == Marked(log, n, i, EveryMark())
  }

  lemma SummedStep(log: seq<MemoryEntry>, n: nat, i: nat, mean: real, turns: real, spread: real,
                   flips: real, all: real)
    requires 2 <= i < n <= |log| && Summed(log, n, i, mean, turns, spread, flips, all)
    ensures var w := Decay(i, n);
      Summed(log, n, i + 1, mean,
             if TurnMarks(log)(i) then turns + w else turns,
             spread + WeightedSquare(w, Newest(log, i - 1).instability - mean),
             if FlipMarks(log)(i) then flips + w else flips,
             all + w)
  {
  }

  lemma OppositeSigns(x: real, y: real)
    ensures x * y < 0.0 <==> (x < 0.0 && 0.0 < y) || (0.0 < x && y < 0.0)
  {
  }

  class RegimeMemory {
    const cap: nat
    const buffer: array<MemoryEntry>
    var index: nat
    var count: nat
    var cycleScore: real
    var midRangeCap: real
    ghost var log: seq<MemoryEntry>

    ghost predicate Valid()
      reads this, buffer
    {
      buffer.Length == cap && Contains(buffer[..], index, count, log) && 0.0 <= cycleScore <= 1.0
    }

    constructor (size: nat)
      requires 0 < size
      ensures Valid() && cap == size && log == [] && cycleScore == 0.0 && fresh(buffer)
    {
      cap, index, count, cycleScore, midRangeCap, log := size, 0, 0, 0.0, 0.0, [];
      buffer := new MemoryEntry[size](_ => NOTHING);
    }

    /** `m.get(i)`: the `i`-th newest entry of the whole log. */
    method Get(i: nat) returns (e: MemoryEntry)
      requires Valid() && i < count
      ensures e == Newest(log, i)
    {
      ContainsAt(buffer[..], index, count, log, i + 1);
      e := buffer[Slot(index + cap - (i + 1), cap)];
    }

    /** The entry joins the log; an action that reverses the newest one pushes the cycle score up,
        anything else lets it decay; the capacity hint follows the workers while it is high. */
    method Add(e: MemoryEntry)
      requires Valid()
      modifies this, buffer
      ensures Valid() && log == old(log) + [e]
      ensures cycleScore == (if old(count) < 2 then old(cycleScore)
                             else 0.85 * old(cycleScore) + if Flips(Newest(old(log), 0), e) then 0.15 else 0.0)
      ensures midRangeCap == (if !(cycleScore > 0.45 && e.workers > 0.0) then old(midRangeCap)
                              else if old(midRangeCap) == 0.0 then e.workers
                              else 0.90 * old(midRangeCap) + 0.10 * e.workers)
    {
      if count >= 2 {
        var prev := Get(0);
        var flip := 0.0;
        if prev.action != e.action && e.action != "hold" && prev.action != "hold" {
          flip := 1.0;
        }
        cycleScore := 0.85 * cycleScore + 0.15 * flip;
      }
      if cycleScore > 0.45 && e.workers > 0.0 {
        if midRangeCap == 0.0 {
          midRangeCap := e.workers;
        } else {
          midRangeCap := 0.90 * midRangeCap + 0.10 * e.workers;
        }
      }
      ContainsPush(buffer[..], index, count, log, e);
      buffer[index] := e;
      index := (index + 1) % cap;
      if count < cap {
        count := count + 1;
      }
      log := log + [e];
    }

    /** The two inner sums of `GetEffectiveness`: they telescope. */
    method Responses(i: nat) returns (inst: real, load: real)
      requires Valid() && 4 <= i < count
      ensures inst == Response(Newest(log, i).instability, Newest(log, i - 4).instability)
      ensures load == Response(Newest(log, i).load, Newest(log, i - 4).load)
    {
      inst, load := 0.0, 0.0;
      for d := 1 to 5
        invariant inst == Newest(log, i - (d - 1)).instability - Newest(log, i).instability
        invariant load == Newest(log, i - (d - 1)).load - Newest(log, i).load
      {
        var curr := Get(i - d);
        var prev := Get(i - d + 1);
        inst := inst + (curr.instability - prev.instability);
        load := load + (curr.load - prev.load);
      }
      inst, load := inst / 4.0, load / 4.0;
    }

    method GetEffectiveness() returns (r: real)
      requires Valid()
      ensures r == Effectiveness(log, count) && 0.0 <= r <= 1.0
    {
      EffectivenessInRange(log, count);
      if count < 6 {
        return 0.5;
      }
      var score, wSum := 0.0, 0.0;
      for i := 4 to count - 1
        invariant wSum == ActionWeight(log, count, i)
        invariant score == EffectSum(log, count, i)
      {
        var entry := Get(i);
        if entry.action == "scale_up" || entry.action == "scale_down" {
          var expected := if entry.action == "scale_up" then -1.0 else 1.0;
          var inst, load := Responses(i);
          var effect := 0.7 * (-expected * inst) + 0.3 * (-expected * load);
          effect := Clamp01((effect + 1.0) / 2.0);
          var w := Decay(i, count);
          score, wSum := score + Times(w, effect), wSum + w;
        }
      }
      if wSum == 0.0 {
        return 1.0;
      }
      r := Clamp01(score / wSum);
    }

    method MeanInstability() returns (mean: real)
      requires Valid() && 0 < count
      ensures mean == InstabilitySum(log, count) / count as real
    {
      mean := 0.0;
      for i := 0 to count
        invariant mean == InstabilitySum(log, i)
      {
        var e := Get(i);
        mean := mean + e.instability;
      }
      mean := mean / count as real;
    }

    method GetOscillationScore() returns (r: real)
      requires Valid()
      ensures r == Oscillation(log, count) && 0.0 <= r <= 1.0
    {
      OscillationInRange(log, count);
      if count < 6 {
        return 0.0;
      }
      var mean := MeanInstability();
      var zeroCross, variance, actionFlip, wSum := Sums(mean);
      var z := zeroCross / wSum;
      var v := variance / (variance + 1.0);
      var a := actionFlip / wSum;
      r := Clamp01(Blend(z, v, a));
    }

    /** The loop of `GetOscillationScore`. With six entries and more the weights never sum to zero. */
    method Sums(mean: real) returns (zeroCross: real, variance: real, actionFlip: real, wSum: real)
      requires Valid() && 6 <= count
      ensures zeroCross == Marked(log, count, count, TurnMarks(log))
      ensures variance == Spread(log, count, count, mean)
      ensures actionFlip == Marked(log, count, count, FlipMarks(log))
      ensures wSum == Marked(log, count, count, EveryMark()) && 0.0 < wSum
    {
      zeroCross, variance, actionFlip, wSum := 0.0, 0.0, 0.0, 0.0;
      for i := 2 to count
        // `== true` keeps the predicate folded
        invariant Summed(log, count, i, mean, zeroCross, variance, actionFlip, wSum) == true
      {
        zeroCross, variance, actionFlip, wSum := SumUp(i, mean, zeroCross, variance, actionFlip, wSum);
      }
    }

    /** One round of that loop. */
    method SumUp(i: nat, mean: real, turns: real, spread: real, flips: real, all: real)
      returns (turns': real, spread': real, flips': real, all': real)
      requires Valid() && 2 <= i < count && Summed(log, count, i, mean, turns, spread, flips, all)
      ensures Summed(log, count, i + 1, mean, turns', spread', flips', all') == true
    {
      var turned, flipped, mid := Signals(i);
      var w := Decay(i, count);
      SummedStep(log, count, i, mean, turns, spread, flips, all);
      turns' := if turned then turns + w else turns;
      spread' := spread + WeightedSquare(w, mid - mean);
      flips' := if flipped then flips + w else flips;
      all' := all + w;
    }

    method Signals(i: nat) returns (turns: bool, flips: bool, mid: real)
      requires Valid() && 2 <= i < count
      ensures turns == TurnMarks(log)(i) && flips == FlipMarks(log)(i)
      ensures mid == Newest(log, i - 1).instability
    {
      var a := Get(i);
      var b := Get(i - 1);
      var c := Get(i - 2);
      var d1 := b.instability - a.instability;
      var d2 := c.instability - b.instability;
      OppositeSigns(d1, d2);
      turns, flips, mid := d1 * d2 < 0.0, b.action != a.action, b.instability;
    }
  }

  predicate Flips(prev: MemoryEntry, e: MemoryEntry) {
    prev.action != e.action && e.action != "hold" && prev.action != "hold"
  }
}
