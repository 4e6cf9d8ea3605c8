/** The reducer of `RunBatch` (internal/sandbox/parallel_executor.go): a reorder buffer between the
    workers and the sink. The stream of results arrives in any order; workers, timers and
    autoscaling only decide which order that is. */
module Reducer {
  import opened Options

  datatype Result = Result(index: int, payload: int)

  predicate Distinct(rs: seq<Result>) {
    forall i, j | 0 <= i < j < |rs| :: rs[i].index != rs[j].index
  }

  /** The results of jobs 0 to n - 1, each once, in some order. */
  predicate Complete(rs: seq<Result>) {
    Distinct(rs) && forall i | 0 <= i < |rs| :: 0 <= rs[i].index < |rs|
  }

  /** How far the reducer gets by arrivals alone: an arrival counts when it is the next index. */
  function InTurn(arrived: seq<Result>): (n: nat)
    ensures n <= |arrived|
  {
    if arrived == [] then 0
    else
      var n := InTurn(arrived[..|arrived| - 1]);
      if arrived[|arrived| - 1].index == n then n + 1 else n
  }

  /** The arrivals that have to wait in the buffer. */
  function OutOfTurn(arrived: seq<Result>): nat {
    |arrived| - InTurn(arrived)
  }

  function WindowOf(configured: int): (w: nat)
    ensures 0 < w
  {
    if configured <= 0 then 128 else configured
  }

  datatype State = State(pending: map<int, Result>, next: nat, out: seq<Result>)

  /** Each result that arrived is in one place at most, and is itself. */
  ghost predicate Once(arrived: seq<Result>, s: State) {
    && (forall j <- s.pending :: s.pending[j].index == j && s.pending[j] in arrived)
    && (forall i | 0 <= i < |s.out| :: s.out[i] in arrived && s.out[i].index !in s.pending)
    && Distinct(s.out)
  }

  /** `out` holds exactly the results 0 to |out| - 1, in order. */
  predicate Sequential(out: seq<Result>) {
    forall i | 0 <= i < |out| :: out[i].index == i
  }

  ghost predicate Arrived(arrived: seq<Result>, index: int) {
    exists r :: r in arrived && r.index == index
  }

  lemma ArrivedSnoc(arrived: seq<Result>, r: Result)
    ensures forall i :: Arrived(arrived + [r], i) <==> Arrived(arrived, i) || i == r.index
  {
    forall i
      ensures Arrived(arrived + [r], i) <==> Arrived(arrived, i) || i == r.index
    {
      assert r in arrived + [r];
      if Arrived(arrived, i) {
        var q :| q in arrived && q.index == i;
        assert q in arrived + [r];
      }
    }
  }

  /** Where the reducer stands on a complete stream. Before the first speculative flush everything
      sunk is in order. After it, `flushed` is an index that was sunk early: the reducer never gets
      past it. */
  ghost predicate Standing(arrived: seq<Result>, s: State, flushed: Option<int>) {
    && Once(arrived, s)
    && |s.out| + |s.pending| == |arrived|
    && s.next == InTurn(arrived)
    && (forall i | 0 <= i < s.next :: Arrived(arrived, i) && i !in s.pending)
    && (match flushed
        case None => Sequential(s.out) && |s.out| == s.next
        case Some(f) => s.next <= f && f !in s.pending && s.pending != map[] && Arrived(arrived, f))
  }

  function Sink(s: State, r: Result): State {
    s.(out := s.out + [r])
  }

  function Deliver(s: State, r: Result): State {
    Sink(s, r).(next := s.next + 1)
  }

  function Store(s: State, r: Result): State {
    s.(pending := s.pending[r.index := r])
  }

  function Flush(s: State, f: int): State
    requires f in s.pending
  {
    Sink(s, s.pending[f]).(pending := s.pending - {f})
  }

  ghost predicate Fresh(arrived: seq<Result>, r: Result) {
    forall i | 0 <= i < |arrived| :: arrived[i].index != r.index
  }

  lemma InTurnSnoc(arrived: seq<Result>, r: Result)
    ensures InTurn(arrived + [r]) == if r.index == InTurn(arrived) then InTurn(arrived) + 1 else InTurn(arrived)
  {
    assert (arrived + [r])[..|arrived|] == arrived;
  }

  lemma OnceDeliver(arrived: seq<Result>, s: State, r: Result)
    requires Once(arrived, s) && Fresh(arrived, r)
    ensures Once(arrived + [r], Sink(s, r))
  {
    assert r in arrived + [r];
  }

  lemma OnceStore(arrived: seq<Result>, s: State, r: Result)
    requires Once(arrived, s) && Fresh(arrived, r)
    ensures Once(arrived + [r], Store(s, r)) && |Store(s, r).pending| == |s.pending| + 1
  {
    assert r in arrived + [r];
    assert r.index !in s.pending;
  }

  lemma OnceFlush(arrived: seq<Result>, s: State, f: int)
    requires Once(arrived, s) && f in s.pending
    ensures Once(arrived, Flush(s, f)) && |Flush(s, f).pending| == |s.pending| - 1
  {
    assert (s.pending - {f}).Keys == s.pending.Keys - {f};
  }

  lemma StandingDeliver(arrived: seq<Result>, s: State, flushed: Option<int>, r: Result)
    requires Standing(arrived, s, flushed) && Fresh(arrived, r) && r.index == s.next
    ensures Standing(arrived + [r], Deliver(s, r), flushed)
  {
    OnceDeliver(arrived, s, r);
    InTurnSnoc(arrived, r);
    ArrivedSnoc(arrived, r);
    assert r.index !in s.pending;
  }

  lemma StandingStore(arrived: seq<Result>, s: State, flushed: Option<int>, r: Result)
    requires Standing(arrived, s, flushed) && Fresh(arrived, r) && r.index != s.next
    ensures Standing(arrived + [r], Store(s, r), flushed)
  {
    OnceStore(arrived, s, r);
    InTurnSnoc(arrived, r);
    ArrivedSnoc(arrived, r);
  }

  /** A speculative flush makes room and spoils the order for good. */
  lemma StandingFlush(arrived: seq<Result>, s: State, flushed: Option<int>, f: int, r: Result)
    requires Standing(arrived, s, flushed) && Fresh(arrived, r) && r.index != s.next
    requires f in s.pending && 0 <= f
    ensures Standing(arrived + [r], Store(Flush(s, f), r), Some(if flushed.Some? then flushed.value else f))
  {
    OnceFlush(arrived, s, f);
    OnceStore(arrived, Flush(s, f), r);
    InTurnSnoc(arrived, r);
    ArrivedSnoc(arrived, r);
    assert Arrived(arrived, f);
  }

  // ---------------------------------------------------------------------------------------
  // The closing drain
  // ---------------------------------------------------------------------------------------

  function Range(lo: int, hi: int): (s: set<int>)
    requires lo <= hi
    ensures |s| == hi - lo && forall i :: i in s <==> lo <= i < hi
    decreases hi - lo
  {
    if lo == hi then {} else {lo} + Range(lo + 1, hi)
  }

  lemma {:induction false} SubsetSize<T>(a: set<T>, b: set<T>)
    requires a <= b
    ensures |a| <= |b|
    decreases a
  {
    if a != {} {
      var x :| x in a;
      SubsetSize(a - {x}, b - {x});
    }
  }

  /** As many waiting results as there are places left: the next one is among them. */
  lemma NextIsWaiting(keys: set<int>, next: int, n: int)
    requires 0 <= next < n && keys <= Range(0, n) && |keys| == n - next
    requires forall i | 0 <= i < next :: i !in keys
    ensures next in keys
  {
    if next !in keys {
      SubsetSize(keys, Range(next + 1, n));
    }
  }

  /** During the closing drain of a complete stream. */
  ghost predicate Draining(results: seq<Result>, s: State, flushed: Option<int>, drained: bool) {
    && Once(results, s)
    && |s.out| + |s.pending| == |results|
    && (forall i | 0 <= i < s.next :: i !in s.pending)
    && (match flushed
        case None => Sequential(s.out) && |s.out| == s.next
        case Some(f) => s.next <= f < |results| && f !in s.pending
                        && (if drained then s.out != [] && s.out[|s.out| - 1].index < s.next else s.pending != map[]))
  }

  lemma DrainStarts(results: seq<Result>, s: State, flushed: Option<int>)
    requires Complete(results) && Standing(results, s, flushed)
    ensures Draining(results, s, flushed, false)
  {
  }

  lemma DrainStep(results: seq<Result>, s: State, flushed: Option<int>, drained: bool)
    requires Draining(results, s, flushed, drained) && s.next in s.pending
    ensures Draining(results, Flush(s, s.next).(next := s.next + 1), flushed, true)
  {
    OnceFlush(results, s, s.next);
  }

  lemma DrainEnds(results: seq<Result>, s: State, flushed: Option<int>, drained: bool)
    requires Complete(results) && Draining(results, s, flushed, drained) && s.next !in s.pending
    ensures flushed.None? <==> |s.out| == |results| && Sequential(s.out)
  {
    if flushed.None? {
      assert s.pending.Keys <= Range(0, |results|);
      if s.next < |results| {
        NextIsWaiting(s.pending.Keys, s.next, |results|);
      }
    } else if |s.out| == |results| {
      assert s.out[|s.out| - 1].index < |s.out| - 1;
    }
  }

  // ---------------------------------------------------------------------------------------
  // RunBatch
  // ---------------------------------------------------------------------------------------

  /** Every result of `out` is one of `results`, and none occurs twice. */
  ghost predicate AtMostOnce(out: seq<Result>, results: seq<Result>) {
    Distinct(out) && forall i | 0 <= i < |out| :: out[i] in results
  }

  /** Where the reducer stands after `arrived`, with buffer size `window`. */
  ghost predicate Progress(arrived: seq<Result>, s: State, flushed: Option<int>, window: nat) {
    && Standing(arrived, s, flushed)
    && |s.pending| <= window && (flushed.None? <==> OutOfTurn(arrived) <= window)
  }

  lemma ProgressStep(arrived: seq<Result>, s: State, flushed: Option<int>, window: nat, r: Result, f: int)
    requires Progress(arrived, s, flushed, window) && Fresh(arrived, r) && 0 < window
    ensures r.index == s.next ==> Progress(arrived + [r], Deliver(s, r), flushed, window)
    ensures r.index != s.next && |s.pending| < window ==> Progress(arrived + [r], Store(s, r), flushed, window)
    ensures r.index != s.next && |s.pending| >= window && f in s.pending && 0 <= f ==>
        Progress(arrived + [r], Store(Flush(s, f), r), Some(if flushed.Some? then flushed.value else f), window)
  {
    InTurnSnoc(arrived, r);
    if r.index == s.next {
      StandingDeliver(arrived, s, flushed, r);
    } else if |s.pending| < window {
      StandingStore(arrived, s, flushed, r);
      assert |Store(s, r).pending| == |s.pending| + 1;
    } else if f in s.pending && 0 <= f {
      StandingFlush(arrived, s, flushed, f, r);
      OnceFlush(arrived, s, f);
      OnceStore(arrived, Flush(s, f), r);
    }
  }

  lemma OnceStep(arrived: seq<Result>, s: State, r: Result, f: int)
    requires Once(arrived, s) && Fresh(arrived, r)
    ensures Once(arrived + [r], Deliver(s, r)) && Once(arrived + [r], Store(s, r))
    ensures f in s.pending ==> Once(arrived + [r], Store(Flush(s, f), r))
  {
    OnceDeliver(arrived, s, r);
    OnceStore(arrived, s, r);
    if f in s.pending {
      OnceFlush(arrived, s, f);
      OnceStore(arrived, Flush(s, f), r);
    }
  }

  /** What holds after `k` arrivals of any stream. */
  ghost predicate Tracking(results: seq<Result>, k: nat, s: State, flushed: Option<int>, window: nat)
    requires k <= |results|
  {
    && (Distinct(results) ==> Once(results[..k], s))
    && (Complete(results) ==> Progress(results[..k], s, flushed, window))
  }

  /** `s'` is the state after one result; `f` is what was flushed to make room for it. */
  ghost predicate Received(s: State, r: Result, window: nat, s': State, f: Option<int>) {
    if r.index == s.next then s' == Deliver(s, r) && f == None
    else if |s.pending| < window then s' == Store(s, r) && f == None
    else f.Some? && f.value in s.pending && s' == Store(Flush(s, f.value), r)
  }

  function FirstFlush(flushed: Option<int>, f: Option<int>): Option<int> {
    if flushed.Some? then flushed else f
  }

  lemma TrackingStart(results: seq<Result>, window: nat)
    ensures Tracking(results, 0, State(map[], 0, []), None, window)
  {
    assert results[..0] == [];
  }

  lemma TrackingStep(results: seq<Result>, k: nat, s: State, flushed: Option<int>, window: nat,
                     s': State, f: Option<int>)
    requires k < |results| && 0 < window && Tracking(results, k, s, flushed, window)
    requires Received(s, results[k], window, s', f)
    ensures Tracking(results, k + 1, s', FirstFlush(flushed, f), window)
  {
    var arrived, r := results[..k], results[k];
    var at := if f.Some? then f.value else 0;
    assert results[..k + 1] == arrived + [r];
    if Distinct(results) {
      assert Fresh(arrived, r);
      OnceStep(arrived, s, r, at);
    }
    if Complete(results) {
      if f.Some? {
        assert s.pending[at] in arrived;
      }
      ProgressStep(arrived, s, flushed, window, r, at);
    }
  }

  method Drain(pending: map<int, Result>, next: nat, out: seq<Result>, ghost results: seq<Result>,
               ghost flushed: Option<int>) returns (out': seq<Result>)
    ensures Distinct(results) && Once(results, State(pending, next, out)) ==> AtMostOnce(out', results)
    ensures Complete(results) && Draining(results, State(pending, next, out), flushed, false) ==>
        (flushed.None? <==> |out'| == |results| && Sequential(out'))
  {
    var p, n: nat := pending, next;
    out' := out;
    ghost var drained := false;
    while n in p
      invariant Distinct(results) && Once(results, State(pending, next, out)) ==> Once(results, State(p, n, out'))
      invariant Complete(results) && Draining(results, State(pending, next, out), flushed, false) ==>
          Draining(results, State(p, n, out'), flushed, drained)
      decreases |p|
    {
      if Distinct(results) && Once(results, State(pending, next, out)) {
        OnceFlush(results, State(p, n, out'), n);
      }
      if Complete(results) && Draining(results, State(pending, next, out), flushed, false) {
        DrainStep(results, State(p, n, out'), flushed, drained);
      }
      assert (p - {n}).Keys == p.Keys - {n};
      out', p, n, drained := out' + [p[n]], p - {n}, n + 1, true;
    }
    if Complete(results) && Draining(results, State(pending, next, out), flushed, false) {
      DrainEnds(results, State(p, n, out'), flushed, drained);
    }
  }

  /** The first key of a map iteration: any one. */
  method AnyKey<T(==)>(keys: set<T>) returns (k: T)
    requires keys != {}
    ensures k in keys
  {
    k :| k in keys;
  }

  /** `s` is a state the reducer can be in after the first `k` results. */
  ghost predicate Reaches(results: seq<Result>, k: nat, window: nat, s: State)
    requires k <= |results|
    decreases k, 0
  {
    if k == 0 then s == State(map[], 0, []) else ReachesNext(results, k - 1, window, s)
  }

  /** ... one result after a state it can be in after `k`. */
  ghost predicate ReachesNext(results: seq<Result>, k: nat, window: nat, s: State)
    requires k < |results|
    decreases k, 1
  {
    exists before, f :: Reaches(results, k, window, before) && Received(before, results[k], window, s, f)
  }

  lemma ReachesStep(results: seq<Result>, k: nat, window: nat, s: State, s': State, f: Option<int>)
    requires k < |results| && Reaches(results, k, window, s) && Received(s, results[k], window, s', f)
    ensures Reaches(results, k + 1, window, s')
  {
    assert ReachesNext(results, k, window, s');
  }

  lemma SunkStep(arrived: seq<Result>, s: State, r: Result, window: nat, s': State, f: Option<int>)
    requires Once(arrived, s) && |s.out| + |s.pending| == |arrived| && Fresh(arrived, r)
    requires 0 < window && Received(s, r, window, s', f)
    ensures Once(arrived + [r], s') && |s'.out| + |s'.pending| == |arrived| + 1
  {
    if r.index == s.next {
      OnceDeliver(arrived, s, r);
    } else if |s.pending| < window {
      OnceStore(arrived, s, r);
    } else {
      OnceFlush(arrived, s, f.value);
      OnceStore(arrived, Flush(s, f.value), r);
    }
  }

  /** Of distinct results each one received has been sunk or is still in the buffer, and only those. */
  lemma {:induction false} SunkOrBuffered(results: seq<Result>, k: nat, window: nat, s: State)
    requires Distinct(results) && k <= |results| && 0 < window && Reaches(results, k, window, s)
    ensures Once(results[..k], s) && |s.out| + |s.pending| == k
  {
    if k > 0 {
      assert ReachesNext(results, k - 1, window, s);
      var before, f :| Reaches(results, k - 1, window, before) && Received(before, results[k - 1], window, s, f);
      SunkOrBuffered(results, k - 1, window, before);
      assert results[..k] == results[..k - 1] + [results[k - 1]];
      SunkStep(results[..k - 1], before, results[k - 1], window, s, f);
    }
  }

  /** One result from the channel. When the buffer is full an arbitrary entry is flushed first. */
  method Receive(s: State, r: Result, window: nat) returns (s': State)
    requires 0 < window
    ensures exists f :: Received(s, r, window, s', f)
  {
    ghost var f: Option<int> := None;
    if r.index == s.next {
      s' := Deliver(s, r);
    } else {
      s' := s;
      if |s.pending| >= window {
        var k := AnyKey(s.pending.Keys);
        s', f := Flush(s, k), Some(k);
      }
      s' := Store(s', r);
    }
    assert Received(s, r, window, s', f);
  }

  /** The reducer. `cancelAt` is when the context is found done, if ever; `results` is what arrives
      on the result channel. */
  method RunBatch(results: seq<Result>, reorderWindow: int, cancelAt: Option<nat>, flushOnCancel: bool)
    returns (out: seq<Result>)
    ensures Distinct(results) ==> AtMostOnce(out, results)
    ensures Complete(results) && cancelAt.None? ==>
        ((|out| == |results| && Sequential(out)) <==> OutOfTurn(results) <= WindowOf(reorderWindow))
    ensures Complete(results) && cancelAt.None? && |results| <= WindowOf(reorderWindow) + 1 ==>
        |out| == |results| && Sequential(out)
    ensures cancelAt.Some? && cancelAt.value <= |results| ==>
        exists s :: Reaches(results, cancelAt.value, WindowOf(reorderWindow), s)
               && out == s.out + (if flushOnCancel then results[cancelAt.value..] else [])
  {
    if Complete(results) && results != [] {
      SmallBatchFits(results);
    }
    var window := WindowOf(reorderWindow);
    var s, k, flushed := ReceiveAll(results, window, cancelAt);
    if cancelAt == Some(k) {
      Leftover(results, k, s);
      assert s.out + [] == s.out;
      return if flushOnCancel then s.out + results[k..] else s.out;
    }
    assert results[..k] == results;
    if Complete(results) {
      DrainStarts(results, s, flushed);
    }
    out := Drain(s.pending, s.next, s.out, results, flushed);
  }

  /** The select loop, until the context is done or the channel is closed. */
  method ReceiveAll(results: seq<Result>, window: nat, cancelAt: Option<nat>)
    returns (s: State, k: nat, ghost flushed: Option<int>)
    requires 0 < window
    ensures k <= |results| && (cancelAt != Some(k) ==> k == |results|)
    ensures cancelAt.Some? && cancelAt.value <= |results| ==> k == cancelAt.value
    ensures Tracking(results, k, s, flushed, window) && Reaches(results, k, window, s)
  {
    s, k, flushed := State(map[], 0, []), 0, None;
    TrackingStart(results, window);
    while k < |results| && cancelAt != Some(k)
      invariant 0 <= k <= |results|
      invariant cancelAt.Some? && cancelAt.value <= |results| ==> k <= cancelAt.value
      // `== true` keeps the predicate folded
      invariant Tracking(results, k, s, flushed, window) == true
      invariant Reaches(results, k, window, s) == true
      decreases |results| - k
    {
      var s' := Receive(s, results[k], window);
      ghost var f :| Received(s, results[k], window, s', f);
      TrackingStep(results, k, s, flushed, window, s', f);
      ReachesStep(results, k, window, s, s', f);
      s, k, flushed := s', k + 1, FirstFlush(flushed, f);
    }
  }

  /** With at most one more job than the buffer has places, no complete stream overflows it. */
  lemma SmallBatchFits(results: seq<Result>)
    requires Complete(results) && results != []
    ensures OutOfTurn(results) <= |results| - 1
  {
    ZeroArrives(results);
    var first :| 0 <= first < |results| && results[first].index == 0;
    InTurnPositive(results, first);
  }

  lemma ZeroArrives(results: seq<Result>)
    requires Complete(results) && results != []
    ensures exists i :: 0 <= i < |results| && results[i].index == 0
  {
    if forall i | 0 <= i < |results| :: results[i].index != 0 {
      var keys := set i | 0 <= i < |results| :: results[i].index;
      IndexCount(results, |results|);
      assert keys <= Range(1, |results|);
      SubsetSize(keys, Range(1, |results|));
    }
  }

  lemma {:induction false} IndexCount(results: seq<Result>, n: nat)
    requires Distinct(results) && n <= |results|
    ensures |set i | 0 <= i < n :: results[i].index| == n
  {
    if n > 0 {
      IndexCount(results, n - 1);
      var before := set i | 0 <= i < n - 1 :: results[i].index;
      assert (set i | 0 <= i < n :: results[i].index) == before + {results[n - 1].index};
    }
  }

  lemma {:induction false} InTurnPositive(results: seq<Result>, first: nat)
    requires first < |results| && results[first].index == 0
    ensures 0 < InTurn(results)
  {
    var n := |results| - 1;
    if first < n {
      InTurnPositive(results[..n], first);
    }
  }

  lemma Leftover(results: seq<Result>, k: nat, s: State)
    requires k <= |results|
    ensures Distinct(results) && Once(results[..k], s) ==>
        AtMostOnce(s.out + results[k..], results) && AtMostOnce(s.out, results)
  {
    if Distinct(results) && Once(results[..k], s) {
      forall i, j | 0 <= i < |s.out| && k <= j < |results|
        ensures s.out[i].index != results[j].index
      {
        assert s.out[i] in results[..k];
      }
    }
  }

  /** Results 1 to n - 1, and 0 last. */
  function ZeroLast(n: nat): (rs: seq<Result>)
    ensures |rs| == n && forall i | 0 <= i < n :: rs[i].index == if i == n - 1 then 0 else i + 1
  {
    seq(n, i => Result(if i == n - 1 then 0 else i + 1, 0))
  }

  lemma {:induction false} NothingInTurn(n: nat, k: nat)
    requires k < n
    ensures InTurn(ZeroLast(n)[..k]) == 0
  {
    if k > 0 {
      NothingInTurn(n, k - 1);
      assert ZeroLast(n)[..k][..k - 1] == ZeroLast(n)[..k - 1];
    }
  }

  lemma ZeroLastWaits(n: nat)
    requires 0 < n
    ensures Complete(ZeroLast(n)) && OutOfTurn(ZeroLast(n)) == n - 1
  {
    NothingInTurn(n, n - 1);
  }

  /** So every arrival order of a complete batch leaves in order if and only if the batch has at most
      one result more than the buffer has places. */
  lemma EveryOrderFitsIff(n: nat, window: nat)
    requires 0 < window
    ensures (forall rs | Complete(rs) && |rs| == n :: OutOfTurn(rs) <= window) <==> n <= window + 1
  {
    if n <= window + 1 {
      forall rs | Complete(rs) && |rs| == n
        ensures OutOfTurn(rs) <= window
      {
        if rs != [] {
          SmallBatchFits(rs);
        }
      }
    } else {
      ZeroLastWaits(n);
      var rs := ZeroLast(n);
      assert Complete(rs) && |rs| == n && OutOfTurn(rs) > window;
    }
  }
}
