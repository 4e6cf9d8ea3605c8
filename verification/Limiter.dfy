/** The token-bucket rate limiter (internal/security/security.go). Times and durations are
    nanoseconds; the clock is an input of every call. */
module Limiter {
  import opened Reals

  type Key = string

  datatype Config = Config(capacity: real, refillRate: real, idleTimeout: int)

  datatype Bucket = Bucket(tokens: real, lastSeen: int)

  type Buckets = map<Key, Bucket>

  datatype State = State(buckets: Buckets, lastCleanup: int)

  const MINUTE := 60_000_000_000

  function Seconds(ns: int): real {
    ns as real / 1000000000.0
  }

  /** The tokens of a bucket once `now` is accounted for. */
  function Refilled(cfg: Config, b: Bucket, now: int): real {
    Min(b.tokens + Times(cfg.refillRate, Seconds(now - b.lastSeen)), cfg.capacity)
  }

  /** The tokens a call for `key` finds; a new bucket starts full. */
  function Level(cfg: Config, buckets: Buckets, key: Key, now: int): real {
    Refilled(cfg, if key in buckets then buckets[key] else Bucket(cfg.capacity, now), now)
  }

  predicate Allows(cfg: Config, buckets: Buckets, key: Key, now: int) {
    Level(cfg, buckets, key, now) >= 1.0
  }

  function Serve(cfg: Config, buckets: Buckets, key: Key, now: int): Buckets {
    var level := Level(cfg, buckets, key, now);
    buckets[key := Bucket(if level >= 1.0 then level - 1.0 else level, now)]
  }

  predicate Idle(cfg: Config, b: Bucket, now: int) {
    now - b.lastSeen > cfg.idleTimeout
  }

  /** Garbage collection: at most once a minute, buckets idle for too long are dropped. */
  function Collect(cfg: Config, s: State, now: int): State {
    if now - s.lastCleanup < MINUTE then s
    else State(map k <- s.buckets | !Idle(cfg, s.buckets[k], now) :: s.buckets[k], now)
  }

  function Step(cfg: Config, s: State, key: Key, now: int): State {
    Collect(cfg, s.(buckets := Serve(cfg, s.buckets, key, now)), now)
  }

  class RateLimiter {
    const cfg: Config
    var buckets: Buckets
    var lastCleanup: int

    function View(): State
      reads this
    {
      State(buckets, lastCleanup)
    }

    constructor (capacity: real, rps: real, idleFor: int, now: int)
      ensures cfg == Config(capacity, rps, idleFor) && View() == State(map[], now)
    {
      cfg := Config(capacity, rps, idleFor);
      buckets, lastCleanup := map[], now;
    }

    method Allow(key: Key, now: int) returns (ok: bool)
      modifies this
      ensures ok == Allows(cfg, old(buckets), key, now)
      ensures View() == Step(cfg, old(View()), key, now)
    {
      var b := if key in buckets then buckets[key] else Bucket(cfg.capacity, now);
      var tokens := b.tokens + cfg.refillRate * Seconds(now - b.lastSeen);
      if tokens > cfg.capacity {
        tokens := cfg.capacity;
      }
      if tokens < 1.0 {
        buckets := buckets[key := Bucket(tokens, now)];
        GcIfNeeded(now);
        return false;
      }
      buckets := buckets[key := Bucket(tokens - 1.0, now)];
      GcIfNeeded(now);
      return true;
    }

    method GcIfNeeded(now: int)
      modifies this
      ensures View() == Collect(cfg, old(View()), now)
    {
      if now - lastCleanup < MINUTE {
        return;
      }
      var todo := buckets.Keys;
      while todo != {}
        invariant todo <= old(buckets).Keys
        invariant buckets == map k <- old(buckets) | k in todo || !Idle(cfg, old(buckets)[k], now) :: old(buckets)[k]
        decreases todo
      {
        var k :| k in todo;
        if now - buckets[k].lastSeen > cfg.idleTimeout {
          buckets := buckets - {k};
        }
        todo := todo - {k};
      }
      lastCleanup := now;
    }
  }

  // ---------------------------------------------------------------------------------------
  // Garbage collection cannot be observed
  // ---------------------------------------------------------------------------------------

  datatype Call = Call(key: Key, now: int)

  predicate Ordered(calls: seq<Call>, from: int) {
    calls == [] || (from <= calls[0].now && Ordered(calls[1..], calls[0].now))
  }

  /** The answers of the limiter to a run of calls. */
  function Answers(cfg: Config, s: State, calls: seq<Call>): (r: seq<bool>)
    ensures |r| == |calls|
    decreases |calls|
  {
    if calls == [] then []
    else
      var Call(key, now) := calls[0];
      [Allows(cfg, s.buckets, key, now)] + Answers(cfg, Step(cfg, s, key, now), calls[1..])
  }

  /** The answers of a limiter that never deletes a bucket. */
  function IdealAnswers(cfg: Config, buckets: Buckets, calls: seq<Call>): (r: seq<bool>)
    ensures |r| == |calls|
    decreases |calls|
  {
    if calls == [] then []
    else
      var Call(key, now) := calls[0];
      [Allows(cfg, buckets, key, now)] + IdealAnswers(cfg, Serve(cfg, buckets, key, now), calls[1..])
  }

  /** A bucket idle for longer than the timeout, so at least a nanosecond longer, has had the time
      to fill up. */
  predicate Sensible(cfg: Config) {
    0.0 <= cfg.refillRate && 0.0 <= cfg.capacity
    && cfg.capacity <= Times(cfg.refillRate, Seconds(cfg.idleTimeout + 1))
  }

  predicate Sound(cfg: Config, buckets: Buckets, now: int) {
    forall k <- buckets :: 0.0 <= buckets[k].tokens <= cfg.capacity && buckets[k].lastSeen <= now
  }

  /** `buckets` is `ideal` without some buckets that are full by `now`. */
  ghost predicate Hidden(cfg: Config, buckets: Buckets, ideal: Buckets, now: int) {
    && Sound(cfg, ideal, now)
    && (forall k <- buckets :: k in ideal && buckets[k] == ideal[k])
    && (forall k <- ideal :: k !in buckets ==> Refilled(cfg, ideal[k], now) == cfg.capacity)
  }

  lemma RefillMonotone(cfg: Config, b: Bucket, now: int, later: int)
    requires 0.0 <= cfg.refillRate && now <= later
    ensures Refilled(cfg, b, now) <= Refilled(cfg, b, later)
    ensures Refilled(cfg, b, later) <= Refilled(cfg, b, now) + Times(cfg.refillRate, Seconds(later - now))
  {
    var x, y, z := Seconds(now - b.lastSeen), Seconds(later - b.lastSeen), Seconds(later - now);
    assert y == x + z;
    assert Times(cfg.refillRate, y) == Times(cfg.refillRate, x) + Times(cfg.refillRate, z);
    TimesNonNegative(cfg.refillRate, z);
  }

  lemma RefilledInRange(cfg: Config, b: Bucket, now: int)
    requires 0.0 <= cfg.refillRate && 0.0 <= b.tokens <= cfg.capacity && b.lastSeen <= now
    ensures b.tokens <= Refilled(cfg, b, now) <= cfg.capacity
    ensures b.lastSeen == now ==> Refilled(cfg, b, now) == b.tokens
  {
    TimesNonNegative(cfg.refillRate, Seconds(now - b.lastSeen));
    assert Times(cfg.refillRate, 0.0) == 0.0;
  }

  lemma IdleIsFull(cfg: Config, b: Bucket, now: int)
    requires Sensible(cfg) && 0.0 <= b.tokens <= cfg.capacity && Idle(cfg, b, now)
    ensures Refilled(cfg, b, now) == cfg.capacity
  {
    var x, y := Seconds(cfg.idleTimeout + 1), Seconds(now - b.lastSeen);
    MulMono(x, y, cfg.refillRate);
    assert Times(cfg.refillRate, x) <= Times(cfg.refillRate, y);
  }

  lemma HiddenLater(cfg: Config, buckets: Buckets, ideal: Buckets, now: int, later: int)
    requires Sensible(cfg) && Hidden(cfg, buckets, ideal, now) && now <= later
    ensures Hidden(cfg, buckets, ideal, later)
  {
    forall k <- ideal | k !in buckets
      ensures Refilled(cfg, ideal[k], later) == cfg.capacity
    {
      RefillMonotone(cfg, ideal[k], now, later);
    }
  }

  lemma ServeHidden(cfg: Config, buckets: Buckets, ideal: Buckets, key: Key, now: int)
    requires Sensible(cfg) && Hidden(cfg, buckets, ideal, now)
    ensures Allows(cfg, buckets, key, now) == Allows(cfg, ideal, key, now)
    ensures Hidden(cfg, Serve(cfg, buckets, key, now), Serve(cfg, ideal, key, now), now)
  {
    RefilledInRange(cfg, Bucket(cfg.capacity, now), now);
    if key in ideal {
      RefilledInRange(cfg, ideal[key], now);
    }
    assert Level(cfg, buckets, key, now) == Level(cfg, ideal, key, now);
  }

  lemma CollectHidden(cfg: Config, s: State, ideal: Buckets, now: int)
    requires Sensible(cfg) && Hidden(cfg, s.buckets, ideal, now)
    ensures Hidden(cfg, Collect(cfg, s, now).buckets, ideal, now)
  {
    var s' := Collect(cfg, s, now);
    forall k <- ideal | k !in s'.buckets
      ensures Refilled(cfg, ideal[k], now) == cfg.capacity
    {
      if k in s.buckets {
        IdleIsFull(cfg, ideal[k], now);
      }
    }
  }

  lemma {:induction false} SameAnswers(cfg: Config, s: State, ideal: Buckets, calls: seq<Call>, from: int)
    requires Sensible(cfg) && Hidden(cfg, s.buckets, ideal, from) && Ordered(calls, from)
    ensures Answers(cfg, s, calls) == IdealAnswers(cfg, ideal, calls)
    decreases |calls|
  {
    if calls != [] {
      var Call(key, now) := calls[0];
      HiddenLater(cfg, s.buckets, ideal, from, now);
      ServeHidden(cfg, s.buckets, ideal, key, now);
      CollectHidden(cfg, s.(buckets := Serve(cfg, s.buckets, key, now)), Serve(cfg, ideal, key, now), now);
      SameAnswers(cfg, Step(cfg, s, key, now), Serve(cfg, ideal, key, now), calls[1..], now);
    }
  }

  /** Whatever is deleted and when, every call is answered as if nothing ever were. */
  lemma CollectionUnobservable(cfg: Config, start: int, calls: seq<Call>)
    requires Sensible(cfg) && Ordered(calls, start)
    ensures Answers(cfg, State(map[], start), calls) == IdealAnswers(cfg, map[], calls)
  {
    SameAnswers(cfg, State(map[], start), map[], calls, start);
  }

  /** Both limiters of the API server are sensible: bursts of 3 and 30 seconds, five minutes idle. */
  lemma ServerLimitersAreSensible(rps: real)
    requires 0.0 <= rps
    ensures Sensible(Config(rps * 3.0, rps, 5 * MINUTE))
    ensures Sensible(Config(rps * 30.0, rps, 5 * MINUTE))
  {
    assert Seconds(5 * MINUTE) == 300.0;
    MulMono(300.0, Seconds(5 * MINUTE + 1), rps);
  }

  // ---------------------------------------------------------------------------------------
  // What is kept
  // ---------------------------------------------------------------------------------------

  /** No bucket was idle at the last clean-up, and the last clean-up is less than a minute ago. */
  ghost predicate Tidy(cfg: Config, s: State, now: int) {
    && 0 <= now - s.lastCleanup < MINUTE
    && forall k <- s.buckets :: s.lastCleanup - s.buckets[k].lastSeen <= cfg.idleTimeout && s.buckets[k].lastSeen <= now
  }

  lemma StepTidies(cfg: Config, s: State, key: Key, now: int)
    requires 0 <= cfg.idleTimeout && s.lastCleanup <= now
    requires forall k <- s.buckets ::
        s.lastCleanup - s.buckets[k].lastSeen <= cfg.idleTimeout && s.buckets[k].lastSeen <= now
    ensures Tidy(cfg, Step(cfg, s, key, now), now)
  {
  }

  lemma {:induction false} RunTidies(cfg: Config, s: State, calls: seq<Call>, from: int)
    requires 0 <= cfg.idleTimeout && Ordered(calls, from) && Tidy(cfg, s, from)
    ensures Tidy(cfg, StateAfter(cfg, s, calls), if calls == [] then from else calls[|calls| - 1].now)
    decreases |calls|
  {
    if calls != [] {
      StepTidies(cfg, s, calls[0].key, calls[0].now);
      RunTidies(cfg, Step(cfg, s, calls[0].key, calls[0].now), calls[1..], calls[0].now);
    }
  }

  /** In every run no bucket is kept for a key last seen a minute and the idle timeout before the last
      call, so the map does not grow without bound. */
  lemma NothingKeptForLong(cfg: Config, start: int, calls: seq<Call>, key: Key)
    requires 0 <= cfg.idleTimeout && Ordered(calls, start) && calls != []
    ensures var s := StateAfter(cfg, State(map[], start), calls);
      key in s.buckets ==> calls[|calls| - 1].now - s.buckets[key].lastSeen < cfg.idleTimeout + MINUTE
  {
    RunTidies(cfg, State(map[], start), calls, start);
  }

  // ---------------------------------------------------------------------------------------
  // Exactly when deletion can be observed
  // ---------------------------------------------------------------------------------------

  /** No run tells the limiter from one that never deletes a bucket. */
  ghost predicate Unobservable(cfg: Config) {
    forall start: int, calls: seq<Call> | Ordered(calls, start) ::
      Answers(cfg, State(map[], start), calls) == IdealAnswers(cfg, map[], calls)
  }

  /** Below one token of capacity every call is refused. */
  lemma {:induction false} NothingAllowed(cfg: Config, s: State, ideal: Buckets, calls: seq<Call>)
    requires cfg.capacity < 1.0
    ensures Answers(cfg, s, calls) == IdealAnswers(cfg, ideal, calls)
    decreases |calls|
  {
    if calls != [] {
      var Call(key, now) := calls[0];
      NothingAllowed(cfg, Step(cfg, s, key, now), Serve(cfg, ideal, key, now), calls[1..]);
    }
  }

  function StateAfter(cfg: Config, s: State, calls: seq<Call>): State
    decreases |calls|
  {
    if calls == [] then s else StateAfter(cfg, Step(cfg, s, calls[0].key, calls[0].now), calls[1..])
  }

  function IdealAfter(cfg: Config, buckets: Buckets, calls: seq<Call>): Buckets
    decreases |calls|
  {
    if calls == [] then buckets
    else IdealAfter(cfg, Serve(cfg, buckets, calls[0].key, calls[0].now), calls[1..])
  }

  lemma {:induction false} AnswersSplit(cfg: Config, s: State, a: seq<Call>, b: seq<Call>)
    ensures Answers(cfg, s, a + b) == Answers(cfg, s, a) + Answers(cfg, StateAfter(cfg, s, a), b)
    decreases |a|
  {
    if a == [] {
      assert a + b == b;
    } else {
      assert (a + b)[1..] == a[1..] + b;
      AnswersSplit(cfg, Step(cfg, s, a[0].key, a[0].now), a[1..], b);
    }
  }

  lemma {:induction false} IdealSplit(cfg: Config, buckets: Buckets, a: seq<Call>, b: seq<Call>)
    ensures IdealAnswers(cfg, buckets, a + b)
         == IdealAnswers(cfg, buckets, a) + IdealAnswers(cfg, IdealAfter(cfg, buckets, a), b)
    decreases |a|
  {
    if a == [] {
      assert a + b == b;
    } else {
      assert (a + b)[1..] == a[1..] + b;
      IdealSplit(cfg, Serve(cfg, buckets, a[0].key, a[0].now), a[1..], b);
    }
  }

  function Burst(key: Key, now: int, m: nat): (calls: seq<Call>)
    ensures |calls| == m
  {
    if m == 0 then [] else [Call(key, now)] + Burst(key, now, m - 1)
  }

  /** Of calls at the same instant as many are let through as there are whole tokens. */
  lemma {:induction false} BurstAnswers(cfg: Config, buckets: Buckets, key: Key, now: int, m: nat)
    requires 0.0 <= cfg.refillRate && 0.0 <= cfg.capacity && Sound(cfg, buckets, now)
    ensures forall i | 0 <= i < m ::
        IdealAnswers(cfg, buckets, Burst(key, now, m))[i] <==> (i + 1) as real <= Level(cfg, buckets, key, now)
    decreases m
  {
    if m > 0 {
      var level := Level(cfg, buckets, key, now);
      var served := Serve(cfg, buckets, key, now);
      ServeLevel(cfg, buckets, key, key, now);
      ServeKeepsSound(cfg, buckets, key, now);
      BurstAnswers(cfg, served, key, now, m - 1);
      assert Burst(key, now, m)[1..] == Burst(key, now, m - 1);
    }
  }

  lemma {:induction false} BurstDrains(cfg: Config, buckets: Buckets, key: Key, now: int, m: nat)
    requires 0.0 <= cfg.refillRate && 0.0 <= cfg.capacity && Sound(cfg, buckets, now)
    requires 0 < m && m as real <= Level(cfg, buckets, key, now)
    ensures IdealAfter(cfg, buckets, Burst(key, now, m))
         == buckets[key := Bucket(Level(cfg, buckets, key, now) - m as real, now)]
    decreases m
  {
    var served := Serve(cfg, buckets, key, now);
    assert Burst(key, now, m)[1..] == Burst(key, now, m - 1);
    if m > 1 {
      ServeLevel(cfg, buckets, key, key, now);
      ServeKeepsSound(cfg, buckets, key, now);
      BurstDrains(cfg, served, key, now, m - 1);
    }
  }

  /** Less than a minute after the last clean-up nothing is deleted. */
  lemma {:induction false} BurstUncollected(cfg: Config, s: State, key: Key, now: int, m: nat)
    requires now - s.lastCleanup < MINUTE
    ensures Answers(cfg, s, Burst(key, now, m)) == IdealAnswers(cfg, s.buckets, Burst(key, now, m))
    ensures StateAfter(cfg, s, Burst(key, now, m))
         == State(IdealAfter(cfg, s.buckets, Burst(key, now, m)), s.lastCleanup)
    decreases m
  {
    if m > 0 {
      assert Burst(key, now, m)[1..] == Burst(key, now, m - 1);
      BurstUncollected(cfg, Step(cfg, s, key, now), key, now, m - 1);
    }
  }

  /** Late enough that a bucket last seen then is idle when the first clean-up is due. */
  function DrainTime(cfg: Config, start: int): int {
    if cfg.idleTimeout + 1 < MINUTE then start + MINUTE - cfg.idleTimeout - 1 else start
  }

  /** `n` calls for one key and, as soon as it is idle, a call for another key. */
  function Drained(cfg: Config, start: int, n: nat): (calls: seq<Call>)
    ensures |calls| == n + 1
  {
    var t := DrainTime(cfg, start);
    Burst("a", t, n) + [Call("b", t + cfg.idleTimeout + 1)]
  }

  /** ... and `n` more calls for the first key. */
  function Probe(cfg: Config, start: int, n: nat): seq<Call> {
    Drained(cfg, start, n) + Burst("a", DrainTime(cfg, start) + cfg.idleTimeout + 1, n)
  }

  lemma {:induction false} BurstOrdered(key: Key, now: int, m: nat, from: int, rest: seq<Call>)
    requires from <= now && Ordered(rest, now)
    ensures Ordered(Burst(key, now, m) + rest, from)
    decreases m
  {
    var calls := Burst(key, now, m) + rest;
    if m == 0 {
      assert calls == rest;
    } else {
      assert calls[1..] == Burst(key, now, m - 1) + rest;
      BurstOrdered(key, now, m - 1, now, rest);
    }
  }

  lemma ProbeOrdered(cfg: Config, start: int, n: nat)
    requires 0 <= cfg.idleTimeout
    ensures Ordered(Probe(cfg, start, n), start)
  {
    var t := DrainTime(cfg, start);
    var u := t + cfg.idleTimeout + 1;
    var first, rest := Burst("a", t, n), [Call("b", u)] + Burst("a", u, n);
    BurstOrdered("a", u, n, u, []);
    assert Burst("a", u, n) + [] == Burst("a", u, n);
    assert rest[1..] == Burst("a", u, n);
    BurstOrdered("a", t, n, start, rest);
    assert Probe(cfg, start, n) == first + rest;
  }

  lemma {:induction false} StateAfterLast(cfg: Config, s: State, calls: seq<Call>, c: Call)
    ensures StateAfter(cfg, s, calls + [c]) == Step(cfg, StateAfter(cfg, s, calls), c.key, c.now)
    decreases |calls|
  {
    if calls == [] {
      assert calls + [c] == [c] && [c][1..] == [];
    } else {
      assert (calls + [c])[1..] == calls[1..] + [c];
      StateAfterLast(cfg, Step(cfg, s, calls[0].key, calls[0].now), calls[1..], c);
    }
  }

  lemma {:induction false} IdealAfterLast(cfg: Config, buckets: Buckets, calls: seq<Call>, c: Call)
    ensures IdealAfter(cfg, buckets, calls + [c]) == Serve(cfg, IdealAfter(cfg, buckets, calls), c.key, c.now)
    decreases |calls|
  {
    if calls == [] {
      assert calls + [c] == [c] && [c][1..] == [];
    } else {
      assert (calls + [c])[1..] == calls[1..] + [c];
      IdealAfterLast(cfg, Serve(cfg, buckets, calls[0].key, calls[0].now), calls[1..], c);
    }
  }

  /** The state in which the second burst finds the limiter, and a limiter that deletes nothing. */
  lemma BeforeSecondBurst(cfg: Config, start: int, n: nat)
    requires 0.0 <= cfg.refillRate && 0 <= cfg.idleTimeout && 0 < n && n as real <= cfg.capacity
    ensures var t, calls := DrainTime(cfg, start), Drained(cfg, start, n);
      var u := t + cfg.idleTimeout + 1;
      var s, ideal := StateAfter(cfg, State(map[], start), calls), IdealAfter(cfg, map[], calls);
      && "a" !in s.buckets && Sound(cfg, s.buckets, u) && s.lastCleanup == u
      && Sound(cfg, ideal, u) && "a" in ideal && ideal["a"] == Bucket(cfg.capacity - n as real, t)
  {
    var t, none: Buckets := DrainTime(cfg, start), map[];
    var u, first := t + cfg.idleTimeout + 1, Burst("a", t, n);
    RefilledInRange(cfg, Bucket(cfg.capacity, t), t);
    BurstUncollected(cfg, State(none, start), "a", t, n);
    BurstDrains(cfg, none, "a", t, n);
    ServeKeepsSound(cfg, none["a" := Bucket(cfg.capacity - n as real, t)], "b", u);
    StateAfterLast(cfg, State(none, start), first, Call("b", u));
    IdealAfterLast(cfg, none, first, Call("b", u));
  }

  lemma ProbeGranted(cfg: Config, start: int, n: nat)
    requires 0.0 <= cfg.refillRate && 0 <= cfg.idleTimeout && 0 < n && n as real <= cfg.capacity
    ensures |Probe(cfg, start, n)| == 2 * n + 1
    ensures Answers(cfg, State(map[], start), Probe(cfg, start, n))[2 * n]
  {
    var u, s0 := DrainTime(cfg, start) + cfg.idleTimeout + 1, State(map[], start);
    var s := StateAfter(cfg, s0, Drained(cfg, start, n));
    AnswersSplit(cfg, s0, Drained(cfg, start, n), Burst("a", u, n));
    BeforeSecondBurst(cfg, start, n);
    RefilledInRange(cfg, Bucket(cfg.capacity, u), u);
    BurstUncollected(cfg, s, "a", u, n);
    BurstAnswers(cfg, s.buckets, "a", u, n);
  }

  lemma ProbeRefused(cfg: Config, start: int, n: nat)
    requires 0.0 <= cfg.refillRate && 0 <= cfg.idleTimeout && 0 < n && n as real <= cfg.capacity
    requires cfg.capacity - n as real + Times(cfg.refillRate, Seconds(cfg.idleTimeout + 1)) < n as real
    ensures |Probe(cfg, start, n)| == 2 * n + 1
    ensures !IdealAnswers(cfg, map[], Probe(cfg, start, n))[2 * n]
  {
    var u := DrainTime(cfg, start) + cfg.idleTimeout + 1;
    IdealSplit(cfg, map[], Drained(cfg, start, n), Burst("a", u, n));
    BeforeSecondBurst(cfg, start, n);
    BurstAnswers(cfg, IdealAfter(cfg, map[], Drained(cfg, start, n)), "a", u, n);
  }

  /** When a bucket drained of `n` tokens does not get them back while idle, its deletion lets the
      last call of the second burst through, which would have been refused. */
  lemma ProbeShowsDeletion(cfg: Config, start: int, n: nat)
    requires 0.0 <= cfg.refillRate && 0 <= cfg.idleTimeout && 0 < n && n as real <= cfg.capacity
    requires cfg.capacity - n as real + Times(cfg.refillRate, Seconds(cfg.idleTimeout + 1)) < n as real
    ensures Ordered(Probe(cfg, start, n), start)
    ensures Answers(cfg, State(map[], start), Probe(cfg, start, n)) != IdealAnswers(cfg, map[], Probe(cfg, start, n))
  {
    ProbeOrdered(cfg, start, n);
    ProbeGranted(cfg, start, n);
    ProbeRefused(cfg, start, n);
  }

  /** Limits that let nothing through, or let an idle bucket fill up, never show a deletion. */
  lemma UnobservableWhen(cfg: Config)
    requires cfg.capacity < 1.0 || Sensible(cfg)
    ensures Unobservable(cfg)
  {
    forall start: int, calls: seq<Call> | Ordered(calls, start)
      ensures Answers(cfg, State(map[], start), calls) == IdealAnswers(cfg, map[], calls)
    {
      if cfg.capacity < 1.0 {
        NothingAllowed(cfg, State(map[], start), map[], calls);
      } else {
        CollectionUnobservable(cfg, start, calls);
      }
    }
  }

  /** For a whole number of tokens that is the exact condition. */
  lemma UnobservableIff(cfg: Config, n: nat)
    requires 0 < n && cfg.capacity == n as real && 0.0 <= cfg.refillRate && 0 <= cfg.idleTimeout
    ensures Unobservable(cfg) <==> cfg.capacity <= Times(cfg.refillRate, Seconds(cfg.idleTimeout + 1))
  {
    if cfg.capacity <= Times(cfg.refillRate, Seconds(cfg.idleTimeout + 1)) {
      UnobservableWhen(cfg);
    } else {
      ProbeShowsDeletion(cfg, 0, n);
      assert Ordered(Probe(cfg, 0, n), 0);
    }
  }

  // ---------------------------------------------------------------------------------------
  // How much is let through
  // ---------------------------------------------------------------------------------------

  /** How many of the calls for `key` are answered yes. */
  function Granted(calls: seq<Call>, answers: seq<bool>, key: Key): real
    requires |answers| == |calls|
  {
    if calls == [] then 0.0
    else (if calls[0].key == key && answers[0] then 1.0 else 0.0) + Granted(calls[1..], answers[1..], key)
  }

  lemma LevelInRange(cfg: Config, buckets: Buckets, key: Key, now: int)
    requires 0.0 <= cfg.refillRate && 0.0 <= cfg.capacity && Sound(cfg, buckets, now)
    ensures 0.0 <= Level(cfg, buckets, key, now) <= cfg.capacity
  {
    RefilledInRange(cfg, if key in buckets then buckets[key] else Bucket(cfg.capacity, now), now);
  }

  lemma LevelLater(cfg: Config, buckets: Buckets, key: Key, now: int, later: int)
    requires 0.0 <= cfg.refillRate && 0.0 <= cfg.capacity && now <= later && Sound(cfg, buckets, now)
    ensures Level(cfg, buckets, key, later)
         <= Level(cfg, buckets, key, now) + Times(cfg.refillRate, Seconds(later - now))
  {
    TimesNonNegative(cfg.refillRate, Seconds(later - now));
    if key in buckets {
      RefillMonotone(cfg, buckets[key], now, later);
    }
  }

  lemma SpanSplits(rate: real, t: int, u: int, v: int)
    ensures Times(rate, Seconds(v - t)) == Times(rate, Seconds(u - t)) + Times(rate, Seconds(v - u))
  {
    assert Seconds(v - t) == Seconds(u - t) + Seconds(v - u);
  }

  lemma ServeKeepsSound(cfg: Config, buckets: Buckets, key: Key, now: int)
    requires 0.0 <= cfg.refillRate && 0.0 <= cfg.capacity && Sound(cfg, buckets, now)
    ensures Sound(cfg, Serve(cfg, buckets, key, now), now)
  {
    LevelInRange(cfg, buckets, key, now);
  }

  /** What one call takes out of the level of its key, and what it leaves to the others. */
  lemma ServeLevel(cfg: Config, buckets: Buckets, key: Key, asked: Key, now: int)
    requires 0.0 <= cfg.refillRate && 0.0 <= cfg.capacity && Sound(cfg, buckets, now)
    ensures Level(cfg, Serve(cfg, buckets, asked, now), key, now)
         == Level(cfg, buckets, key, now) - if asked == key && Allows(cfg, buckets, key, now) then 1.0 else 0.0
  {
    LevelInRange(cfg, buckets, key, now);
    ServeKeepsSound(cfg, buckets, asked, now);
    if asked == key {
      RefilledInRange(cfg, Serve(cfg, buckets, asked, now)[key], now);
    }
  }

  lemma {:induction false} GrantedBounded(cfg: Config, buckets: Buckets, calls: seq<Call>, key: Key, from: int, to: int)
    requires 0.0 <= cfg.refillRate && 0.0 <= cfg.capacity && Sound(cfg, buckets, from)
    requires Ordered(calls, from) && from <= to && forall c <- calls :: c.now <= to
    ensures Granted(calls, IdealAnswers(cfg, buckets, calls), key)
         <= Level(cfg, buckets, key, from) + Times(cfg.refillRate, Seconds(to - from))
    decreases |calls|
  {
    if calls == [] {
      LevelInRange(cfg, buckets, key, from);
      TimesNonNegative(cfg.refillRate, Seconds(to - from));
    } else {
      var Call(asked, now) := calls[0];
      assert Sound(cfg, buckets, now);
      LevelLater(cfg, buckets, key, from, now);
      ServeKeepsSound(cfg, buckets, asked, now);
      ServeLevel(cfg, buckets, key, asked, now);
      GrantedBounded(cfg, Serve(cfg, buckets, asked, now), calls[1..], key, now, to);
      SpanSplits(cfg.refillRate, from, now, to);
    }
  }

  /** The answers to a later stretch of calls are those of the state reached before it. */
  lemma {:induction false} AnswersFrom(cfg: Config, buckets: Buckets, calls: seq<Call>, i: nat, from: int)
    requires 0.0 <= cfg.refillRate && 0.0 <= cfg.capacity && Sound(cfg, buckets, from)
    requires Ordered(calls, from) && i < |calls|
    ensures IdealAnswers(cfg, buckets, calls)[i..]
         == IdealAnswers(cfg, IdealAfter(cfg, buckets, calls[..i]), calls[i..])
    ensures Sound(cfg, IdealAfter(cfg, buckets, calls[..i]), calls[i].now) && Ordered(calls[i..], calls[i].now)
    decreases |calls|
  {
    if i > 0 {
      var Call(key, now) := calls[0];
      ServeKeepsSound(cfg, buckets, key, now);
      AnswersFrom(cfg, Serve(cfg, buckets, key, now), calls[1..], i - 1, now);
      assert calls[..i][1..] == calls[1..][..i - 1];
      assert calls[1..][i - 1..] == calls[i..];
      assert IdealAnswers(cfg, buckets, calls)[1..][i - 1..] == IdealAnswers(cfg, buckets, calls)[i..];
    }
  }

  lemma {:induction false} AnswersPrefix(cfg: Config, buckets: Buckets, calls: seq<Call>, n: nat)
    requires n <= |calls|
    ensures IdealAnswers(cfg, buckets, calls)[..n] == IdealAnswers(cfg, buckets, calls[..n])
    decreases |calls|
  {
    if n > 0 {
      var Call(key, now) := calls[0];
      AnswersPrefix(cfg, Serve(cfg, buckets, key, now), calls[1..], n - 1);
      assert calls[..n][1..] == calls[1..][..n - 1];
    }
  }

  lemma {:induction false} OrderedAll(calls: seq<Call>, from: int)
    requires Ordered(calls, from)
    ensures forall i, j | 0 <= i <= j < |calls| :: from <= calls[i].now <= calls[j].now
    decreases |calls|
  {
    if calls != [] {
      OrderedAll(calls[1..], calls[0].now);
    }
  }

  lemma {:induction false} OrderedPrefix(calls: seq<Call>, from: int, n: nat)
    requires Ordered(calls, from) && n <= |calls|
    ensures Ordered(calls[..n], from)
    decreases |calls|
  {
    if n > 0 {
      OrderedPrefix(calls[1..], calls[0].now, n - 1);
      assert calls[..n][1..] == calls[1..][..n - 1];
    }
  }

  /** In any run of the limiter, over any stretch of it and for any key, at most `capacity` calls
      plus the refill of the elapsed time are let through, deletions included. */
  lemma RateBound(cfg: Config, start: int, calls: seq<Call>, i: nat, j: nat, key: Key)
    requires Sensible(cfg) && Ordered(calls, start) && i <= j < |calls|
    ensures Granted(calls[i..j + 1], Answers(cfg, State(map[], start), calls)[i..j + 1], key)
         <= cfg.capacity + Times(cfg.refillRate, Seconds(calls[j].now - calls[i].now))
  {
    CollectionUnobservable(cfg, start, calls);
    OrderedAll(calls, start);
    var upTo := calls[..j + 1];
    OrderedPrefix(calls, start, j + 1);
    AnswersPrefix(cfg, map[], calls, j + 1);
    AnswersFrom(cfg, map[], upTo, i, start);
    var before := IdealAfter(cfg, map[], upTo[..i]);
    assert upTo[i..] == calls[i..j + 1];
    assert IdealAnswers(cfg, map[], calls)[..j + 1][i..] == IdealAnswers(cfg, map[], calls)[i..j + 1];
    LevelInRange(cfg, before, key, calls[i].now);
    GrantedBounded(cfg, before, upTo[i..], key, calls[i].now, calls[j].now);
  }

  // ---------------------------------------------------------------------------------------
  // Exactly which calls are let through
  // ---------------------------------------------------------------------------------------

  lemma {:induction false} GrantedLast(calls: seq<Call>, answers: seq<bool>, c: Call, ok: bool, key: Key)
    requires |answers| == |calls|
    ensures Granted(calls + [c], answers + [ok], key)
         == Granted(calls, answers, key) + if c.key == key && ok then 1.0 else 0.0
    decreases |calls|
  {
    if calls == [] {
      assert calls + [c] == [c] && answers + [ok] == [ok];
      assert Granted([c][1..], [ok][1..], key) == 0.0;
    } else {
      assert (calls + [c])[1..] == calls[1..] + [c] && (answers + [ok])[1..] == answers[1..] + [ok];
      GrantedLast(calls[1..], answers[1..], c, ok, key);
    }
  }

  lemma IdealLast(cfg: Config, calls: seq<Call>, c: Call)
    ensures IdealAnswers(cfg, map[], calls + [c])
         == IdealAnswers(cfg, map[], calls) + [Allows(cfg, IdealAfter(cfg, map[], calls), c.key, c.now)]
    ensures IdealAfter(cfg, map[], calls + [c]) == Serve(cfg, IdealAfter(cfg, map[], calls), c.key, c.now)
  {
    IdealSplit(cfg, map[], calls, [c]);
    IdealAfterLast(cfg, map[], calls, c);
    assert [c][1..] == [];
  }

  /** From call `j` of the run up to `now`, `x` tokens more than were granted are available. */
  predicate Affords(cfg: Config, calls: seq<Call>, answers: seq<bool>, key: Key, now: int, x: real, j: nat)
    requires |answers| == |calls| && j < |calls|
  {
    Granted(calls[j..], answers[j..], key) + x <= cfg.capacity + Times(cfg.refillRate, Seconds(now - calls[j].now))
  }

  ghost predicate AffordsFromAll(cfg: Config, calls: seq<Call>, answers: seq<bool>, key: Key, now: int, x: real)
    requires |answers| == |calls|
  {
    forall j | 0 <= j < |calls| && calls[j].key == key :: Affords(cfg, calls, answers, key, now, x, j)
  }

  lemma AffordsLast(cfg: Config, calls: seq<Call>, answers: seq<bool>, c: Call, ok: bool, key: Key, now: int, x: real,
                    j: nat)
    requires |answers| == |calls| && j < |calls|
    ensures var left := if c.key == key && ok then x + 1.0 else x;
      Affords(cfg, calls + [c], answers + [ok], key, now, x, j) <==> Affords(cfg, calls, answers, key, now, left, j)
  {
    assert (calls + [c])[j..] == calls[j..] + [c] && (answers + [ok])[j..] == answers[j..] + [ok];
    GrantedLast(calls[j..], answers[j..], c, ok, key);
  }

  lemma AffordsLater(cfg: Config, calls: seq<Call>, answers: seq<bool>, key: Key, now: int, later: int, x: real, j: nat)
    requires |answers| == |calls| && j < |calls|
    ensures Affords(cfg, calls, answers, key, later, x, j)
       <==> Affords(cfg, calls, answers, key, now, x - Times(cfg.refillRate, Seconds(later - now)), j)
  {
    SpanSplits(cfg.refillRate, calls[j].now, now, later);
  }

  lemma AffordsAtLast(cfg: Config, calls: seq<Call>, answers: seq<bool>, c: Call, ok: bool, now: int, x: real)
    requires |answers| == |calls|
    ensures Affords(cfg, calls + [c], answers + [ok], c.key, now, x, |calls|)
       <==> (if ok then 1.0 else 0.0) + x <= cfg.capacity + Times(cfg.refillRate, Seconds(now - c.now))
  {
    assert (calls + [c])[|calls|..] == [c] && (answers + [ok])[|calls|..] == [ok];
    assert Granted([c][1..], [ok][1..], c.key) == 0.0;
  }

  lemma OtherKeyAffords(cfg: Config, calls: seq<Call>, answers: seq<bool>, c: Call, ok: bool, key: Key, now: int,
                        x: real)
    requires |answers| == |calls| && c.key != key
    ensures AffordsFromAll(cfg, calls + [c], answers + [ok], key, now, x)
       <==> AffordsFromAll(cfg, calls, answers, key, now, x)
  {
    forall j | 0 <= j < |calls|
      ensures (calls + [c])[j] == calls[j]
      ensures Affords(cfg, calls + [c], answers + [ok], key, now, x, j)
         <==> Affords(cfg, calls, answers, key, now, x, j)
    {
      AffordsLast(cfg, calls, answers, c, ok, key, now, x, j);
    }
  }

  lemma SameKeyAffords(cfg: Config, calls: seq<Call>, answers: seq<bool>, c: Call, ok: bool, now: int, x: real)
    requires |answers| == |calls|
    ensures var g, refill := if ok then 1.0 else 0.0, Times(cfg.refillRate, Seconds(now - c.now));
      AffordsFromAll(cfg, calls + [c], answers + [ok], c.key, now, x)
      <==> g + x <= cfg.capacity + refill && AffordsFromAll(cfg, calls, answers, c.key, c.now, x + g - refill)
  {
    var g := if ok then 1.0 else 0.0;
    var left := x + g - Times(cfg.refillRate, Seconds(now - c.now));
    forall j | 0 <= j < |calls|
      ensures (calls + [c])[j] == calls[j]
      ensures Affords(cfg, calls + [c], answers + [ok], c.key, now, x, j)
         <==> Affords(cfg, calls, answers, c.key, c.now, left, j)
    {
      AffordsLast(cfg, calls, answers, c, ok, c.key, now, x, j);
      AffordsLater(cfg, calls, answers, c.key, c.now, now, x + g, j);
    }
    AffordsAtLast(cfg, calls, answers, c, ok, now, x);
  }

  lemma NewLevel(cfg: Config, buckets: Buckets, c: Call, now: int, x: real)
    ensures var g := if Allows(cfg, buckets, c.key, c.now) then 1.0 else 0.0;
      var left := x + g - Times(cfg.refillRate, Seconds(now - c.now));
      x <= Level(cfg, Serve(cfg, buckets, c.key, c.now), c.key, now)
      <==> x <= cfg.capacity && left <= Level(cfg, buckets, c.key, c.now)
  {
  }

  lemma NoBucketYet(cfg: Config, key: Key, now: int)
    ensures Level(cfg, map[], key, now) == cfg.capacity
  {
    assert Times(cfg.refillRate, Seconds(0)) == 0.0;
  }

  /** After any calls, a key has at least `x` tokens if and only if that is within the capacity, and
      from every earlier call for the key on, grants and `x` together are within the capacity and the
      refill of the time since. */
  lemma {:induction false} LevelIff(cfg: Config, calls: seq<Call>, key: Key, now: int, x: real)
    ensures x <= Level(cfg, IdealAfter(cfg, map[], calls), key, now)
       <==> x <= cfg.capacity && AffordsFromAll(cfg, calls, IdealAnswers(cfg, map[], calls), key, now, x)
    decreases |calls|
  {
    if calls == [] {
      NoBucketYet(cfg, key, now);
    } else {
      var before, c := calls[..|calls| - 1], calls[|calls| - 1];
      var buckets, answers := IdealAfter(cfg, map[], before), IdealAnswers(cfg, map[], before);
      var ok := Allows(cfg, buckets, c.key, c.now);
      assert calls == before + [c];
      IdealLast(cfg, before, c);
      if c.key == key {
        var left := x + (if ok then 1.0 else 0.0) - Times(cfg.refillRate, Seconds(now - c.now));
        NewLevel(cfg, buckets, c, now, x);
        SameKeyAffords(cfg, before, answers, c, ok, now, x);
        LevelIff(cfg, before, key, c.now, left);
      } else {
        OtherKeyAffords(cfg, before, answers, c, ok, key, now, x);
        LevelIff(cfg, before, key, now, x);
      }
    }
  }

  /** What was granted to the key of call `i` from call `j` on, and one more, is within the capacity
      and the refill of the time between them. */
  predicate FitsFrom(cfg: Config, calls: seq<Call>, answers: seq<bool>, i: nat, j: nat)
    requires |answers| == |calls| && j <= i < |calls|
  {
    Granted(calls[j..i], answers[j..i], calls[i].key) + 1.0
      <= cfg.capacity + Times(cfg.refillRate, Seconds(calls[i].now - calls[j].now))
  }

  lemma FitsIsAffords(cfg: Config, calls: seq<Call>, answers: seq<bool>, i: nat, j: nat)
    requires |answers| == |calls| && j < i < |calls|
    ensures FitsFrom(cfg, calls, answers, i, j)
       <==> Affords(cfg, calls[..i], answers[..i], calls[i].key, calls[i].now, 1.0, j)
  {
    assert calls[..i][j..] == calls[j..i] && answers[..i][j..] == answers[j..i];
  }

  lemma AnswerAt(cfg: Config, calls: seq<Call>, i: nat)
    requires i < |calls|
    ensures IdealAnswers(cfg, map[], calls)[..i] == IdealAnswers(cfg, map[], calls[..i])
    ensures IdealAnswers(cfg, map[], calls)[i]
       <==> 1.0 <= Level(cfg, IdealAfter(cfg, map[], calls[..i]), calls[i].key, calls[i].now)
  {
    var answers := IdealAnswers(cfg, map[], calls);
    AnswersPrefix(cfg, map[], calls, i);
    AnswersPrefix(cfg, map[], calls, i + 1);
    assert calls[..i + 1] == calls[..i] + [calls[i]] && answers[..i + 1][i] == answers[i];
    IdealLast(cfg, calls[..i], calls[i]);
  }

  /** Exactly which calls of a run are let through: when the capacity is at least one and the call
      fits from every earlier call for its key on. */
  lemma ExactlyAllowed(cfg: Config, start: int, calls: seq<Call>, i: nat)
    requires Sensible(cfg) && Ordered(calls, start) && i < |calls|
    ensures var answers := Answers(cfg, State(map[], start), calls);
      answers[i] <==> 1.0 <= cfg.capacity && FitsFromAll(cfg, calls, answers, i)
  {
    CollectionUnobservable(cfg, start, calls);
    var answers := IdealAnswers(cfg, map[], calls);
    AnswerAt(cfg, calls, i);
    LevelIff(cfg, calls[..i], calls[i].key, calls[i].now, 1.0);
    FitsFromAllIff(cfg, calls, answers, i);
  }

  predicate FitsFromAll(cfg: Config, calls: seq<Call>, answers: seq<bool>, i: nat)
    requires |answers| == |calls| && i < |calls|
  {
    forall j | 0 <= j < i && calls[j].key == calls[i].key :: FitsFrom(cfg, calls, answers, i, j)
  }

  lemma FitsFromAllIff(cfg: Config, calls: seq<Call>, answers: seq<bool>, i: nat)
    requires |answers| == |calls| && i < |calls|
    ensures FitsFromAll(cfg, calls, answers, i)
       <==> AffordsFromAll(cfg, calls[..i], answers[..i], calls[i].key, calls[i].now, 1.0)
  {
    forall j | 0 <= j < i
      ensures FitsFrom(cfg, calls, answers, i, j)
         <==> Affords(cfg, calls[..i], answers[..i], calls[i].key, calls[i].now, 1.0, j)
      ensures calls[..i][j] == calls[j]
    {
      FitsIsAffords(cfg, calls, answers, i, j);
    }
  }
}
