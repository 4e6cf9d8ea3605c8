/** The collector's ingest client (internal/collector/ingest.go): a bounded queue, batches, retries
    and a circuit breaker. Times and durations are nanoseconds. What the network, the clock, the
    encoder and the context do is an input of each call. */
module Ingest {
  import opened Options

  type Point = int

  datatype Config =
    Config(queueSize: int, batchMaxPoints: int, maxRetries: int, retryBaseDelay: int, retryMaxDelay: int,
           circuitOpenAfter: int, circuitCooldown: int, rateLimited: bool)

  /** The defaults the constructor fills in. */
  function Normalised(cfg: Config): (c: Config)
    ensures 0 < c.queueSize && 0 < c.batchMaxPoints
  {
    var c := if cfg.queueSize <= 0 then cfg.(queueSize := 32768) else cfg;
    if c.batchMaxPoints <= 0 then c.(batchMaxPoints := 512) else c
  }

  function Attempts(cfg: Config): (n: nat)
    ensures 0 < n
  {
    if cfg.maxRetries + 1 < 1 then 1 else cfg.maxRetries + 1
  }

  function BaseDelay(cfg: Config): (d: int)
    ensures 0 < d
  {
    if cfg.retryBaseDelay <= 0 then 250_000_000 else cfg.retryBaseDelay
  }

  function MaxDelay(cfg: Config): (d: int)
    ensures 0 < d
  {
    if cfg.retryMaxDelay <= 0 then 5_000_000_000 else cfg.retryMaxDelay
  }

  function Min(x: int, y: int): int {
    if x < y then x else y
  }

  function DoubledBy(d: int, k: nat): int {
    if k == 0 then d else 2 * DoubledBy(d, k - 1)
  }

  /** The pause after the k-th failed attempt: the base delay, doubled each time and capped from the
      second pause on. The first pause is the base delay even where that exceeds the cap. */
  function Pause(cfg: Config, k: nat): int {
    if k == 0 then BaseDelay(cfg) else Min(DoubledBy(BaseDelay(cfg), k), MaxDelay(cfg))
  }

  lemma PauseStep(cfg: Config, k: nat)
    ensures Pause(cfg, k + 1) == Min(2 * Pause(cfg, k), MaxDelay(cfg))
  {
    DoubledPositive(BaseDelay(cfg), k);
  }

  lemma {:induction false} DoubledPositive(d: int, k: nat)
    requires 0 < d
    ensures 0 < DoubledBy(d, k)
  {
    if k > 0 {
      DoubledPositive(d, k - 1);
    }
  }

  /** What became of a point that has left the batch. */
  datatype Fate = Sent | Failed | Unencodable | DroppedOldest

  datatype Departure = Departure(point: Point, fate: Fate)

  /** The outside world during one flush: the result of every POST, before which pause (if any) the
      context is done, whether the batch encodes, whether the context is done before the rate
      limiter lets the flush through, and the two readings of the clock. */
  datatype Weather = Weather(posts: seq<bool>, doneAtPause: Option<nat>, encodes: bool, doneAtRate: bool,
                             entered: int, finished: int)

  /** Did the k-th attempt succeed? Attempts beyond the list fail. */
  predicate Succeeds(w: Weather, k: nat) {
    k < |w.posts| && w.posts[k]
  }

  /** The end of a round of attempts. */
  datatype Outcome = Refused | Delivered | Abandoned | Exhausted

  /** How the attempts from the k-th on end. */
  function EndOf(w: Weather, k: nat, attempts: nat): Outcome
    requires k < attempts
    decreases attempts - k
  {
    if Succeeds(w, k) then Delivered
    else if k == attempts - 1 then Exhausted
    else if w.doneAtPause == Some(k) then Abandoned
    else EndOf(w, k + 1, attempts)
  }

  datatype BreakerState = BreakerState(failures: nat, openTil: Option<int>)

  predicate IsOpen(b: BreakerState, now: int) {
    b.openTil.Some? && now < b.openTil.value
  }

  function OutcomeOf(cfg: Config, b: BreakerState, w: Weather): Outcome {
    if IsOpen(b, w.entered) then Refused else EndOf(w, 0, Attempts(cfg))
  }

  /** The breaker after one flush: a delivery closes it, a round of failed attempts counts, and from
      the configured count on opens it for the cooldown. */
  function AfterFlush(cfg: Config, b: BreakerState, w: Weather): BreakerState {
    match OutcomeOf(cfg, b, w)
    case Refused => b
    case Abandoned => b
    case Delivered => BreakerState(0, None)
    case Exhausted =>
      BreakerState(b.failures + 1,
                   if 0 < cfg.circuitOpenAfter <= b.failures + 1 then Some(w.finished + cfg.circuitCooldown)
                   else b.openTil)
  }

  /** A breaker that is or was open has seen enough failures to open on the next one. */
  predicate BreakerInv(cfg: Config, b: BreakerState) {
    b.openTil.Some? ==> 0 < cfg.circuitOpenAfter <= b.failures
  }

  function AfterAll(cfg: Config, b: BreakerState, ws: seq<Weather>): BreakerState {
    if ws == [] then b else AfterFlush(cfg, AfterAll(cfg, b, ws[..|ws| - 1]), ws[|ws| - 1])
  }

  /** Every round of attempts fails to the end, and time does not run backwards. */
  predicate Outage(ws: seq<Weather>) {
    && (forall i | 0 <= i < |ws| :: ws[i].posts == [] && ws[i].doneAtPause == None && ws[i].entered <= ws[i].finished)
    && (forall i, j | 0 <= i < j < |ws| :: ws[i].finished <= ws[j].entered)
  }

  lemma {:induction false} OutageEnds(w: Weather, k: nat, attempts: nat)
    requires w.posts == [] && w.doneAtPause == None && k < attempts
    ensures EndOf(w, k, attempts) == Exhausted
    decreases attempts - k
  {
    if k + 1 < attempts {
      OutageEnds(w, k + 1, attempts);
    }
  }

  lemma {:induction false} BreakerKept(cfg: Config, b: BreakerState, ws: seq<Weather>)
    requires BreakerInv(cfg, b)
    ensures BreakerInv(cfg, AfterAll(cfg, b, ws))
  {
    if ws != [] {
      BreakerKept(cfg, b, ws[..|ws| - 1]);
    }
  }

  /** How the rounds of attempts of the flushes ended. */
  function Outcomes(cfg: Config, b: BreakerState, ws: seq<Weather>): (os: seq<Outcome>)
    ensures |os| == |ws|
  {
    if ws == [] then []
    else
      var last := |ws| - 1;
      Outcomes(cfg, b, ws[..last]) + [OutcomeOf(cfg, AfterAll(cfg, b, ws[..last]), ws[last])]
  }

  /** The exhausted rounds since the last delivery. */
  function FailedInARow(os: seq<Outcome>): (n: nat)
    ensures n <= |os|
  {
    if os == [] || os[|os| - 1] == Delivered then 0
    else FailedInARow(os[..|os| - 1]) + if os[|os| - 1] == Exhausted then 1 else 0
  }

  /** The last exhausted round. */
  function LastExhausted(os: seq<Outcome>): (i: nat)
    requires 0 < FailedInARow(os)
    ensures i < |os| && os[i] == Exhausted
    ensures forall j | i < j < |os| :: os[j] != Exhausted && os[j] != Delivered
  {
    if os[|os| - 1] == Exhausted then |os| - 1 else LastExhausted(os[..|os| - 1])
  }

  /** After any flushes of a new client the breaker has counted exactly the exhausted rounds since the
      last delivery, and it is set from the configured count on, to the cooldown after the last of
      them. In particular a delivery closes it. */
  lemma {:induction false} BreakerIs(cfg: Config, ws: seq<Weather>)
    ensures var b, os := AfterAll(cfg, BreakerState(0, None), ws), Outcomes(cfg, BreakerState(0, None), ws);
      && b.failures == FailedInARow(os)
      && b.openTil == (if 0 < cfg.circuitOpenAfter <= FailedInARow(os)
                       then Some(ws[LastExhausted(os)].finished + cfg.circuitCooldown) else None)
  {
    if ws != [] {
      var last := |ws| - 1;
      BreakerIs(cfg, ws[..last]);
      assert Outcomes(cfg, BreakerState(0, None), ws)[..last] == Outcomes(cfg, BreakerState(0, None), ws[..last]);
    }
  }

  /** After any flushes of a new client: a breaker that has opened and not been closed since is
      re-opened at once by one failed round, however long ago its cooldown ended. */
  lemma {:induction false} OneFailureReopens(cfg: Config, ws: seq<Weather>, w: Weather)
    requires AfterAll(cfg, BreakerState(0, None), ws).openTil.Some?
    requires OutcomeOf(cfg, AfterAll(cfg, BreakerState(0, None), ws), w) == Exhausted
    ensures AfterAll(cfg, BreakerState(0, None), ws + [w]).openTil == Some(w.finished + cfg.circuitCooldown)
  {
    BreakerKept(cfg, BreakerState(0, None), ws);
    assert (ws + [w])[..|ws|] == ws;
  }

  /** During an outage, once the breaker has opened after flush `i`, any later flush that posts at
      all starts at least the cooldown after flush `i` ended. */
  lemma {:induction false} ProbesAreSpaced(cfg: Config, b: BreakerState, ws: seq<Weather>, i: nat, j: nat)
    requires BreakerInv(cfg, b) && Outage(ws) && i < j < |ws|
    requires !IsOpen(AfterAll(cfg, b, ws[..i]), ws[i].entered)
    requires AfterAll(cfg, b, ws[..i + 1]).openTil.Some?
    requires !IsOpen(AfterAll(cfg, b, ws[..j]), ws[j].entered)
    ensures ws[i].finished + cfg.circuitCooldown <= ws[j].entered
    decreases j
  {
    OpenedAt(cfg, b, ws, i);
    StillOpenUntil(cfg, b, ws, i, j);
  }

  lemma OpenedAt(cfg: Config, b: BreakerState, ws: seq<Weather>, i: nat)
    requires BreakerInv(cfg, b) && Outage(ws) && i < |ws|
    requires !IsOpen(AfterAll(cfg, b, ws[..i]), ws[i].entered)
    requires AfterAll(cfg, b, ws[..i + 1]).openTil.Some?
    ensures AfterAll(cfg, b, ws[..i + 1]).openTil == Some(ws[i].finished + cfg.circuitCooldown)
  {
    assert ws[..i + 1][..i] == ws[..i];
    BreakerKept(cfg, b, ws[..i]);
    OutageEnds(ws[i], 0, Attempts(cfg));
  }

  /** Between `i` and `j` the breaker stays open until flush `i`'s cooldown is over. */
  lemma {:induction false} StillOpenUntil(cfg: Config, b: BreakerState, ws: seq<Weather>, i: nat, j: nat)
    requires Outage(ws) && i < j < |ws|
    requires AfterAll(cfg, b, ws[..i + 1]).openTil == Some(ws[i].finished + cfg.circuitCooldown)
    ensures var later := AfterAll(cfg, b, ws[..j]);
      !IsOpen(later, ws[j].entered) ==> ws[i].finished + cfg.circuitCooldown <= ws[j].entered
    ensures var later := AfterAll(cfg, b, ws[..j]);
      later.openTil == Some(ws[i].finished + cfg.circuitCooldown)
      || (0 < j && ws[i].finished + cfg.circuitCooldown <= ws[j - 1].entered)
    decreases j
  {
    if j > i + 1 {
      StillOpenUntil(cfg, b, ws, i, j - 1);
      assert ws[..j][..j - 1] == ws[..j - 1];
      if j > i + 2 {
        assert ws[j - 2].finished <= ws[j - 1].entered;
      }
    }
  }

  function All(points: seq<Point>, fate: Fate): seq<Departure> {
    seq(|points|, i requires 0 <= i < |points| => Departure(points[i], fate))
  }

  function Points(ds: seq<Departure>): seq<Point> {
    seq(|ds|, i requires 0 <= i < |ds| => ds[i].point)
  }

  function Count(ds: seq<Departure>, fate: Fate): nat {
    if ds == [] then 0 else Count(ds[..|ds| - 1], fate) + if ds[|ds| - 1].fate == fate then 1 else 0
  }

  /** Everything that has left the batch, and what is still in it and in the queue, is what was
      accepted, in that order. */
  ghost predicate Conserved(accepted: seq<Point>, left: seq<Departure>, batch: seq<Point>, queue: seq<Point>) {
    accepted == Points(left) + batch + queue
  }

  lemma PointsAppend(a: seq<Departure>, b: seq<Departure>)
    ensures Points(a + b) == Points(a) + Points(b)
  {
  }

  lemma {:induction false} CountAppend(a: seq<Departure>, b: seq<Departure>, fate: Fate)
    ensures Count(a + b, fate) == Count(a, fate) + Count(b, fate)
    decreases |b|
  {
    if b == [] {
      assert a + b == a;
    } else {
      assert (a + b)[..|a + b| - 1] == a + b[..|b| - 1];
      CountAppend(a, b[..|b| - 1], fate);
    }
  }

  lemma {:induction false} CountUniform(ds: seq<Departure>, f: Fate, fate: Fate)
    requires forall i | 0 <= i < |ds| :: ds[i].fate == f
    ensures Count(ds, fate) == if f == fate then |ds| else 0
  {
    if ds != [] {
      CountUniform(ds[..|ds| - 1], f, fate);
    }
  }

  /** Every departure has one of the four fates. */
  lemma {:induction false} FatesAddUp(ds: seq<Departure>)
    ensures |ds| == Count(ds, Sent) + Count(ds, Failed) + Count(ds, Unencodable) + Count(ds, DroppedOldest)
  {
    if ds != [] {
      FatesAddUp(ds[..|ds| - 1]);
    }
  }

  lemma BatchLeaves(accepted: seq<Point>, left: seq<Departure>, batch: seq<Point>, queue: seq<Point>, fate: Fate)
    requires Conserved(accepted, left, batch, queue)
    ensures Conserved(accepted, left + All(batch, fate), [], queue)
    ensures Count(left + All(batch, fate), DroppedOldest)
         == Count(left, DroppedOldest) + if fate == DroppedOldest then |batch| else 0
  {
    PointsAppend(left, All(batch, fate));
    assert Points(All(batch, fate)) == batch;
    CountAppend(left, All(batch, fate), DroppedOldest);
    CountUniform(All(batch, fate), fate, DroppedOldest);
  }

  lemma OldestLeaves(accepted: seq<Point>, left: seq<Departure>, batch: seq<Point>, queue: seq<Point>)
    requires Conserved(accepted, left, batch, queue) && batch != []
    ensures Conserved(accepted, left + [Departure(batch[0], DroppedOldest)], batch[1..], queue)
    ensures Count(left + [Departure(batch[0], DroppedOldest)], DroppedOldest) == Count(left, DroppedOldest) + 1
  {
    BatchLeaves(accepted, left, batch[..1], batch[1..] + queue, DroppedOldest);
    assert batch == batch[..1] + batch[1..];
    assert All(batch[..1], DroppedOldest) == [Departure(batch[0], DroppedOldest)];
    assert Points(left) + batch + queue == Points(left) + batch[..1] + (batch[1..] + queue);
  }

  lemma PointArrives(accepted: seq<Point>, left: seq<Departure>, batch: seq<Point>, queue: seq<Point>)
    requires Conserved(accepted, left, batch, queue) && queue != []
    ensures Conserved(accepted, left, batch + [queue[0]], queue[1..])
  {
    assert queue == [queue[0]] + queue[1..];
  }

  class IngestClient {
    const cfg: Config
    var queue: seq<Point>
    var batch: seq<Point>
    var failures: nat
    var openTil: Option<int>
    var pointsQueued: nat
    var pointsDropped: nat
    var batchesSent: nat
    var batchesError: nat

    ghost var accepted: seq<Point>      // every point Enqueue took, in order
    ghost var left: seq<Departure>      // every point that left the batch, in order
    ghost var refused: nat              // points Enqueue turned away

    function Breaker(): BreakerState
      reads this
    {
      BreakerState(failures, openTil)
    }

    predicate Configured()
    {
      0 < cfg.queueSize && 0 < cfg.batchMaxPoints
    }

    ghost predicate Valid()
      reads this
    {
      && Configured() && BreakerInv(cfg, Breaker())
      && |queue| <= cfg.queueSize && |batch| <= 4 * cfg.batchMaxPoints
      && Conserved(accepted, left, batch, queue)
      && pointsQueued == |accepted|
      && pointsDropped == refused + Count(left, DroppedOldest)
    }

    constructor (c: Config)
      ensures Valid() && cfg == Normalised(c) && accepted == [] && left == []
      ensures batch == [] && queue == [] && openTil == None && failures == 0
    {
      cfg := Normalised(c);
      queue, batch, failures, openTil := [], [], 0, None;
      pointsQueued, pointsDropped, batchesSent, batchesError := 0, 0, 0, 0;
      accepted, left, refused := [], [], 0;
    }

    /** A full queue refuses the point and counts it as dropped. */
    method Enqueue(p: Point) returns (ok: bool)
      requires Valid()
      modifies `queue, `pointsQueued, `pointsDropped, `accepted, `refused
      ensures Valid() && ok == (|old(queue)| < cfg.queueSize)
      ensures accepted == old(accepted) + (if ok then [p] else [])
      ensures queue == old(queue) + (if ok then [p] else [])
      ensures refused == old(refused) + (if ok then 0 else 1)
    {
      ok := |queue| < cfg.queueSize;
      if ok {
        queue, accepted := queue + [p], accepted + [p];
        pointsQueued := pointsQueued + 1;
        assert Points(left) + batch + (old(queue) + [p]) == Points(left) + batch + old(queue) + [p];
      } else {
        pointsDropped, refused := pointsDropped + 1, refused + 1;
      }
    }

    method CircuitOpen(now: int) returns (open: bool)
      ensures open == (openTil.Some? && now < openTil.value)
    {
      open := openTil.Some? && now < openTil.value;
    }

    method RecordSuccess()
      modifies `failures, `openTil
      ensures failures == 0 && openTil == None
    {
      failures, openTil := 0, None;
    }

    method RecordFailure(now: int)
      modifies `failures, `openTil
      ensures failures == old(failures) + 1
      ensures openTil == if 0 < cfg.circuitOpenAfter <= failures then Some(now + cfg.circuitCooldown) else old(openTil)
    {
      failures := failures + 1;
      if cfg.circuitOpenAfter > 0 && failures >= cfg.circuitOpenAfter {
        openTil := Some(now + cfg.circuitCooldown);
      }
    }

    /** Posts until one attempt succeeds, at most Attempts times, pausing in between. */
    method FlushWithRetry(w: Weather) returns (outcome: Outcome, posted: nat, pauses: seq<int>)
      requires BreakerInv(cfg, Breaker())
      modifies `failures, `openTil
      ensures BreakerInv(cfg, Breaker())
      ensures outcome == Refused <==> old(openTil).Some? && w.entered < old(openTil).value
      ensures posted == 0 <==> outcome == Refused
      ensures posted <= Attempts(cfg) && forall k | 0 <= k < posted - 1 :: !Succeeds(w, k)
      ensures outcome == Delivered <==> 0 < posted && Succeeds(w, posted - 1)
      ensures outcome == Exhausted ==> posted == Attempts(cfg)
      ensures outcome == Abandoned ==> posted < Attempts(cfg) && w.doneAtPause == Some(posted - 1)
      ensures forall k | 0 <= k < |pauses| :: pauses[k] == Pause(cfg, k)
      ensures 0 < posted ==> |pauses| == posted - 1
      ensures outcome == OutcomeOf(cfg, old(Breaker()), w)
      ensures Breaker() == AfterFlush(cfg, old(Breaker()), w)
    {
      posted, pauses := 0, [];
      var open := CircuitOpen(w.entered);
      if open {
        return Refused, posted, pauses;
      }
      var delay := BaseDelay(cfg);
      var attempts := Attempts(cfg);
      for attempt := 0 to attempts
        invariant attempt < attempts && delay == Pause(cfg, attempt)
        invariant posted == attempt == |pauses|
        invariant failures == old(failures) && openTil == old(openTil)
        invariant forall k | 0 <= k < attempt :: !Succeeds(w, k)
        invariant EndOf(w, 0, attempts) == EndOf(w, attempt, attempts)
        invariant forall k | 0 <= k < |pauses| :: pauses[k] == Pause(cfg, k)
      {
        posted := posted + 1;
        if Succeeds(w, attempt) {
          RecordSuccess();
          return Delivered, posted, pauses;
        }
        if attempt == attempts - 1 {
          break;
        }
        if w.doneAtPause == Some(attempt) {
          return Abandoned, posted, pauses;
        }
        pauses := pauses + [delay];
        PauseStep(cfg, attempt);
        delay := 2 * delay;
        if delay > MaxDelay(cfg) {
          delay := MaxDelay(cfg);
        }
      }
      RecordFailure(w.finished);
      outcome := Exhausted;
    }

    /** What a flush makes of the points of the batch, if it gets to them. */
    function FateOf(w: Weather): (fate: Fate)
      reads this
      ensures fate != DroppedOldest
    {
      if !w.encodes then Unencodable
      else if OutcomeOf(cfg, Breaker(), w) == Delivered then Sent else Failed
    }

    /** The flush closure of `Run`: the whole batch leaves with one fate, or nothing happens because
        it is empty or the context is done before the rate limiter lets it through. */
    method Flush(w: Weather) returns (posted: nat)
      requires Valid()
      modifies `batch, `failures, `openTil, `batchesSent, `batchesError, `left
      ensures Valid()
      ensures old(batch) == [] || (cfg.rateLimited && w.doneAtRate) ==>
          batch == old(batch) && left == old(left) && Breaker() == old(Breaker()) && posted == 0
      ensures !(old(batch) == [] || (cfg.rateLimited && w.doneAtRate)) ==>
          batch == [] && left == old(left) + All(old(batch), old(FateOf(w)))
          && Breaker() == (if w.encodes then AfterFlush(cfg, old(Breaker()), w) else old(Breaker()))
      ensures IsOpen(old(Breaker()), w.entered) ==> posted == 0
      ensures var tried := old(batch) != [] && !(cfg.rateLimited && w.doneAtRate) && w.encodes;
        && batchesSent == old(batchesSent) + (if tried && old(FateOf(w)) == Sent then 1 else 0)
        && batchesError == old(batchesError) + (if tried && old(FateOf(w)) == Failed then 1 else 0)
    {
      posted := 0;
      if |batch| == 0 {
        return;
      }
      if cfg.rateLimited && w.doneAtRate {
        return;
      }
      ghost var fate := FateOf(w);
      BatchLeaves(accepted, left, batch, queue, fate);
      if w.encodes {
        var outcome, n, pauses := FlushWithRetry(w);
        posted := n;
        if outcome == Delivered {
          batchesSent := batchesSent + 1;
        } else {
          batchesError := batchesError + 1;
        }
      }
      left := left + All(batch, fate);
      batch := [];
    }

    /** The batch as the next point finds it: at four times the batch size its oldest point goes. */
    function Evicted(): (ds: seq<Departure>)
      reads this
    {
      if Configured() && |batch| >= cfg.batchMaxPoints * 4 then [Departure(batch[0], DroppedOldest)] else []
    }

    function Admitted(p: Point): (b: seq<Point>)
      reads this
    {
      (if Configured() && |batch| >= cfg.batchMaxPoints * 4 then batch[1..] else batch) + [p]
    }

    /** The head of the queue moves to the end of the batch. */
    method Admit()
      requires Valid() && queue != []
      modifies `queue, `batch, `left, `pointsDropped
      ensures Valid() && queue == old(queue)[1..]
      ensures batch == old(Admitted(queue[0])) && left == old(left) + old(Evicted())
    {
      if |batch| >= cfg.batchMaxPoints * 4 {
        OldestLeaves(accepted, left, batch, queue);
        left := left + [Departure(batch[0], DroppedOldest)];
        batch := batch[1..];
        pointsDropped := pointsDropped + 1;
      }
      PointArrives(accepted, left, batch, queue);
      batch, queue := batch + [queue[0]], queue[1..];
    }

    /** `case point := <-c.queue`: admit, then flush a full batch. */
    method TakePoint(w: Weather) returns (posted: nat)
      requires Valid() && queue != []
      modifies `queue, `batch, `failures, `openTil, `batchesSent, `batchesError, `left, `pointsDropped
      ensures Valid() && queue == old(queue)[1..]
      ensures var full := old(Admitted(queue[0]));
        if |full| < cfg.batchMaxPoints || (cfg.rateLimited && w.doneAtRate) then
          batch == full && left == old(left) + old(Evicted()) && Breaker() == old(Breaker()) && posted == 0
        else
          && batch == [] && left == old(left) + old(Evicted()) + All(full, old(FateOf(w)))
          && Breaker() == (if w.encodes then AfterFlush(cfg, old(Breaker()), w) else old(Breaker()))
      ensures IsOpen(old(Breaker()), w.entered) ==> posted == 0
    {
      posted := 0;
      Admit();
      if |batch| >= cfg.batchMaxPoints {
        posted := Flush(w);
      }
    }

    /** One event of `Run`. */
    method Handle(e: Event)
      requires Valid()
      modifies this
      ensures Valid() && old(accepted) <= accepted
      ensures NothingLost(cfg, DoneEarly(e), old(batch), old(left), batch, left)
    {
      ghost var l, b := left, batch;
      match e
      case Offered(p) =>
        var ok := Enqueue(p);
      case Woken(w) =>
        if queue != [] {
          ghost var evicted, full, fate := Evicted(), Admitted(queue[0]), FateOf(w);
          var posted := TakePoint(w);
          NothingLostByFlush(cfg, w.doneAtRate, b, l, evicted, full, fate, batch, left);
        }
      case Ticked(w) =>
        ghost var fate := FateOf(w);
        var posted := Flush(w);
        NothingLostByFlush(cfg, w.doneAtRate, b, l, [], b, fate, batch, left);
      case Done(w) =>
        ghost var fate := FateOf(w);
        var posted := Flush(w);
        NothingLostByFlush(cfg, w.doneAtRate, b, l, [], b, fate, batch, left);
    }

    /** `Run` over any sequence of events: offered points, wake-ups for a queued point or a tick, and
        the end of the context. As long as no flush finds the context done, the batch stays below its
        limit and no point is ever dropped from it. */
    method Run(events: seq<Event>)
      requires Valid()
      modifies this
      ensures Valid() && old(accepted) <= accepted
      ensures NothingLost(cfg, exists e <- events :: DoneEarly(e), old(batch), old(left), batch, left)
    {
      ghost var early := exists e <- events :: DoneEarly(e);
      for k := 0 to |events|
        invariant Valid() && old(accepted) <= accepted
        invariant NothingLost(cfg, early, old(batch), old(left), batch, left)
      {
        Handle(events[k]);
        assert events[k] in events;
        if events[k].Done? {
          return;
        }
      }
    }
  }

  /** Departures are only added; and unless some flush found the context done, a batch below its
      limit stays below it and loses no point to the drop-oldest branch. */
  ghost predicate NothingLost(cfg: Config, early: bool, batch0: seq<Point>, left0: seq<Departure>,
                              batch1: seq<Point>, left1: seq<Departure>)
  {
    && left0 <= left1
    && (|batch0| < cfg.batchMaxPoints && !early ==>
          |batch1| < cfg.batchMaxPoints && Count(left1, DroppedOldest) == Count(left0, DroppedOldest))
  }

  lemma NothingLostByFlush(cfg: Config, early: bool, batch0: seq<Point>, left0: seq<Departure>, evicted: seq<Departure>,
                           full: seq<Point>, fate: Fate, batch1: seq<Point>, left1: seq<Departure>)
    requires fate != DroppedOldest && 0 < cfg.batchMaxPoints
    requires |batch0| < cfg.batchMaxPoints ==> evicted == []
    requires || (batch1 == full && left1 == left0 + evicted
                 && (|batch0| < cfg.batchMaxPoints && !early ==> |full| < cfg.batchMaxPoints))
             || (batch1 == [] && left1 == left0 + evicted + All(full, fate))
    ensures NothingLost(cfg, early, batch0, left0, batch1, left1)
  {
    if evicted == [] {
      assert left0 + evicted == left0;
      CountAppend(left0, All(full, fate), DroppedOldest);
      CountUniform(All(full, fate), fate, DroppedOldest);
    }
  }

  datatype Event = Offered(p: Point) | Woken(w: Weather) | Ticked(w: Weather) | Done(w: Weather)

  /** A wake-up whose flush finds the context done before the rate limiter. */
  predicate DoneEarly(e: Event) {
    (e.Woken? || e.Ticked? || e.Done?) && e.w.doneAtRate
  }

  /** Every accepted point is in the queue, in the batch, sent, failed, unencodable or dropped. */
  lemma PointsAddUp(accepted: seq<Point>, left: seq<Departure>, batch: seq<Point>, queue: seq<Point>)
    requires Conserved(accepted, left, batch, queue)
    ensures |accepted| == |queue| + |batch| + Count(left, Sent) + Count(left, Failed)
                        + Count(left, Unencodable) + Count(left, DroppedOldest)
  {
    FatesAddUp(left);
  }

  /** The points of the flushed batches, one after the other. */
  function Flushed(ds: seq<Departure>): seq<Point> {
    if ds == [] then []
    else Flushed(ds[..|ds| - 1]) + if ds[|ds| - 1].fate == DroppedOldest then [] else [ds[|ds| - 1].point]
  }

  /** Without drops, the flushed batches concatenate to a prefix of what was accepted, in order. */
  lemma FlushedInOrder(accepted: seq<Point>, left: seq<Departure>, batch: seq<Point>, queue: seq<Point>)
    requires Conserved(accepted, left, batch, queue) && Count(left, DroppedOldest) == 0
    ensures Flushed(left) <= accepted
  {
    FlushedAll(left);
  }

  lemma {:induction false} FlushedAll(ds: seq<Departure>)
    requires Count(ds, DroppedOldest) == 0
    ensures Flushed(ds) == Points(ds)
  {
    if ds != [] {
      FlushedAll(ds[..|ds| - 1]);
      assert ds == ds[..|ds| - 1] + [ds[|ds| - 1]];
      PointsAppend(ds[..|ds| - 1], [ds[|ds| - 1]]);
    }
  }
}
