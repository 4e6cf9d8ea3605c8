/** The coalescing actuator makes progress: the worker drains what was accepted, whether or not anybody
    closes the actuator, and reports what it did (internal/actuator/coalescer.go). */
module Progress {
  import opened Coalescer

  // ---------------------------------------------------------------------------------------
  // The drain ends
  // ---------------------------------------------------------------------------------------

  function Stage(w: WorkerPC): nat {
    match w
    case Exited => 0
    case Executing(final) => if final then 1 else 5
    case Taking(final) => if final then 2 else 6
    case WantTake(final) => if final then 3 else 7
    case Idle => 4
    case Collecting => 8
    case Sleeping => 9
  }

  function WorkLeft(s: State): nat {
    |s.book.pending| + |s.book.batch| + (if s.ctl.token then 6 else 0) + Stage(s.ctl.worker)
  }

  function LoopSteps(steps: seq<Step>): nat {
    if steps == [] then 0 else (if steps[0].Loop? then 1 else 0) + LoopSteps(steps[1..])
  }

  /** A worker step uses up work, before the channel is closed and after. */
  lemma WorkerDrains(s: State, step: Step)
    requires Controlled(s) && Enabled(s, step) && step.Loop?
    ensures WorkLeft(Apply(s, step)) < WorkLeft(s)
  {
    match step.work
    case Execute(id, ok) => ExecuteDrains(s, id, ok);
    case TakePending => TakeDrains(s);
    case _ =>
  }

  lemma ExecuteDrains(s: State, id: Service, ok: bool)
    requires Enabled(s, Loop(Execute(id, ok)))
    ensures WorkLeft(Apply(s, Loop(Execute(id, ok)))) < WorkLeft(s)
  {
    assert (s.book.batch - {id}).Keys == s.book.batch.Keys - {id};
  }

  lemma TakeDrains(s: State)
    requires Awake(s) && Enabled(s, Loop(TakePending))
    ensures WorkLeft(Apply(s, Loop(TakePending))) < WorkLeft(s)
  {
  }

  lemma DrainStep(s: State, step: Step)
    requires Controlled(s) && s.ctl.chanClosed && Enabled(s, step)
    ensures Apply(s, step).ctl.chanClosed
    ensures WorkLeft(Apply(s, step)) + (if step.Loop? then 1 else 0) <= WorkLeft(s)
  {
    if step.Loop? {
      WorkerDrains(s, step);
    }
  }

  /** After the channel is closed the worker makes at most WorkLeft further steps, in any
      interleaving with other calls. */
  lemma {:induction false} DrainIsBounded(s: State, steps: seq<Step>, s': State)
    requires Reachable(s) && s.ctl.chanClosed && Run(s, steps, s')
    ensures LoopSteps(steps) + WorkLeft(s') <= WorkLeft(s)
    decreases |steps|
  {
    if steps != [] {
      ReachableInv(s);
      DrainStep(s, steps[0]);
      ReachableStep(s, steps[0], Apply(s, steps[0]));
      DrainIsBounded(Apply(s, steps[0]), steps[1..], s');
    }
  }

  /** ... and it is never stuck: until it exits it can step, or a call holds the mutex and that
      call can step. */
  lemma DrainNeverStuck(s: State)
    requires Controlled(s) && s.ctl.chanClosed && !s.ctl.worker.Exited?
    ensures (exists a :: Enabled(s, Loop(a)))
         || (s.ctl.worker.WantTake? && s.ctl.lock.ByDispatch? && exists a :: Enabled(s, Caller(s.ctl.lock.thread, a)))
  {
    match s.ctl.worker
    case Idle => assert Enabled(s, Loop(if s.ctl.token then ReceiveWake else RangeEnds));
    case Sleeping => assert Enabled(s, Loop(WindowOver));
    case Collecting => assert Enabled(s, Loop(if s.ctl.token then CollectToken else CollectClosed));
    case WantTake(_) =>
      if s.ctl.lock.Free? {
        assert Enabled(s, Loop(LockTake));
      } else {
        var t := s.ctl.lock.thread;
        var pc := s.dispatchers[t].pc;
        assert Enabled(s, Caller(t, if pc.Checking? then DoubleCheck else UnlockDispatch));
      }
    case Taking(_) => assert Enabled(s, Loop(TakePending));
    case Executing(_) =>
      if s.book.batch == map[] {
        assert Enabled(s, Loop(FinishBatch));
      } else {
        var id :| id in s.book.batch;
        assert Enabled(s, Loop(Execute(id, true)));
      }
  }

  // ---------------------------------------------------------------------------------------
  // The worker makes progress, whether or not anybody closes the actuator
  // ---------------------------------------------------------------------------------------

  /** A step of the worker, or of the call that holds the mutex. */
  predicate Assists(s: State, step: Step) {
    || step.Loop?
    || (step.Caller? && s.ctl.lock == ByDispatch(step.t))
    || (step.Closer? && s.ctl.lock == ByClose(step.t))
  }

  /** The work a Dispatch inside its critical section may still add: its directives and a token. */
  function IncomingFrom(c: Control, d: Dispatcher): nat {
    match d.pc
    case Checking => if c.closed then 0 else |d.dirs.Keys| + 6
    case Writing(todo) => |todo| + 6
    case _ => 0
  }

  function Incoming(s: State): nat {
    if s.ctl.lock.ByDispatch? && s.ctl.lock.thread in s.dispatchers
    then IncomingFrom(s.ctl, s.dispatchers[s.ctl.lock.thread]) else 0
  }

  /** What is left to do for the worker. It is WorkLeft unless a Dispatch holds the mutex. */
  function Backlog(s: State): nat {
    WorkLeft(s) + Incoming(s)
  }

  function StepsToRelease(c: Control, d: Dispatcher): nat {
    match d.pc
    case Checking => if c.closed then 2 else |d.dirs.Keys| + 3
    case Writing(todo) => |todo| + 2
    case Releasing(_) => 1
    case _ => 0
  }

  /** The steps until the holder of the mutex, if it is a call, has released it. */
  function HolderSteps(s: State): nat {
    match s.ctl.lock
    case ByDispatch(t) => if t in s.dispatchers then StepsToRelease(s.ctl, s.dispatchers[t]) else 0
    case ByClose(_) => 1
    case _ => 0
  }

  lemma WorkerAssists(s: State, step: Step)
    requires Controlled(s) && Enabled(s, step) && step.Loop?
    ensures Backlog(Apply(s, step)) < Backlog(s) && HolderSteps(Apply(s, step)) == HolderSteps(s)
  {
    WorkerDrains(s, step);
  }

  lemma WriteAssists(s: State, t: Thread, id: Service)
    requires Enabled(s, Caller(t, Write(id))) && s.ctl.lock == ByDispatch(t)
    ensures var s' := Apply(s, Caller(t, Write(id))); Backlog(s') <= Backlog(s) && HolderSteps(s') < HolderSteps(s)
  {
    var s' := Apply(s, Caller(t, Write(id)));
    assert s'.book.pending.Keys <= s.book.pending.Keys + {id};
    KeysGrow(s.book.pending, s'.book.pending, id);
    assert |s.dispatchers[t].pc.todo - {id}| == |s.dispatchers[t].pc.todo| - 1;
  }

  lemma KeysGrow<V>(m: map<Service, V>, m': map<Service, V>, id: Service)
    requires m' == m || (id in m' && m' == m[id := m'[id]])
    ensures |m'| <= |m| + 1
  {
    if m' != m {
      assert m'.Keys == m.Keys + {id};
    }
  }

  lemma HolderAssists(s: State, t: Thread, a: CallerAction)
    requires Controlled(s) && Enabled(s, Caller(t, a)) && s.ctl.lock == ByDispatch(t)
    ensures var s' := Apply(s, Caller(t, a)); Backlog(s') <= Backlog(s) && HolderSteps(s') < HolderSteps(s)
  {
    match a
    case Write(id) => WriteAssists(s, t, id);
    case _ =>
  }

  lemma AssistStep(s: State, step: Step)
    requires Controlled(s) && Enabled(s, step) && Assists(s, step)
    ensures var s' := Apply(s, step);
      if step.Loop? then Backlog(s') < Backlog(s) && HolderSteps(s') == HolderSteps(s)
      else Backlog(s') <= Backlog(s) && HolderSteps(s') < HolderSteps(s)
  {
    match step
    case Loop(_) => WorkerAssists(s, step);
    case Caller(t, a) => HolderAssists(s, t, a);
    case Closer(t, a) =>
  }

  /** A run of such steps only. */
  ghost predicate AssistedRun(s: State, steps: seq<Step>, s': State)
    decreases |steps|
  {
    if steps == [] then s == s'
    else Enabled(s, steps[0]) && Assists(s, steps[0]) && AssistedRun(Apply(s, steps[0]), steps[1..], s')
  }

  /** The worker makes at most Backlog steps in it, and the calls at most what releases the mutex. */
  lemma {:induction false} AssistedRunIsBounded(s: State, steps: seq<Step>, s': State)
    requires Reachable(s) && AssistedRun(s, steps, s')
    ensures Reachable(s') && s.book.accepted <= s'.book.accepted
    ensures LoopSteps(steps) + Backlog(s') <= Backlog(s)
    ensures |steps| - LoopSteps(steps) + HolderSteps(s') <= HolderSteps(s)
    decreases |steps|
  {
    if steps != [] {
      ReachableInv(s);
      AssistStep(s, steps[0]);
      ReachableStep(s, steps[0], Apply(s, steps[0]));
      AssistedRunIsBounded(Apply(s, steps[0]), steps[1..], s');
    }
  }

  predicate Clear(s: State) {
    s.book.pending == map[] && s.book.batch == map[]
  }

  ghost predicate CanBeAssisted(s: State) {
    exists step :: Enabled(s, step) && Assists(s, step)
  }

  lemma HolderCanStep(s: State)
    requires Controlled(s) && TodosKnown(s.dispatchers) && (s.ctl.lock.ByDispatch? || s.ctl.lock.ByClose?)
    ensures CanBeAssisted(s)
  {
    var t := s.ctl.lock.thread;
    if s.ctl.lock.ByClose? {
      assert Enabled(s, Closer(t, UnlockBarrier)) && Assists(s, Closer(t, UnlockBarrier));
    } else {
      var pc := s.dispatchers[t].pc;
      var a := if pc.Checking? then DoubleCheck else if pc.Releasing? then UnlockDispatch
               else if pc.todo == {} then Poke else Write(AnyOf(pc.todo));
      assert Enabled(s, Caller(t, a)) && Assists(s, Caller(t, a));
    }
  }

  ghost function AnyOf(ids: set<Service>): (id: Service)
    requires ids != {}
    ensures id in ids
  {
    var id :| id in ids; id
  }

  lemma WorkerCanStep(s: State)
    requires Controlled(s) && TodosKnown(s.dispatchers) && !s.ctl.worker.Exited?
    requires s.ctl.worker.Idle? ==> s.ctl.token
    ensures CanBeAssisted(s)
  {
    var w := s.ctl.worker;
    if w.WantTake? && !s.ctl.lock.Free? {
      HolderCanStep(s);
    } else {
      var a :=
        match w
        case Idle => ReceiveWake
        case Sleeping => WindowOver
        case Collecting =>
          if s.ctl.token then CollectToken else if s.ctl.chanClosed then CollectClosed else CollectDefault
        case WantTake(_) => LockTake
        case Taking(_) => TakePending
        case Executing(_) => if s.book.batch == map[] then FinishBatch else Execute(AnyOf(s.book.batch.Keys), true)
        case Exited => FinishBatch;
      assert Enabled(s, Loop(a)) && Assists(s, Loop(a));
    }
  }

  /** While there is work in the map or in the batch, the worker or the holder of the mutex can step. */
  lemma NeverStuck(s: State)
    requires Reachable(s) && !Clear(s)
    ensures CanBeAssisted(s)
  {
    ReachableInv(s);
    if s.book.batch == map[] && !s.ctl.token && !WorkerOnItsWay(s.ctl.worker) {
      HolderCanStep(s);
    } else {
      WorkerCanStep(s);
    }
  }

  ghost predicate AllSettled(b: Book) {
    forall i | 0 <= i < |b.accepted| :: IsExecuted(b, i) <==> !IsOverwritten(b, i)
  }

  lemma ClearIsSettled(s: State)
    requires Reachable(s) && Clear(s)
    ensures AllSettled(s.book)
  {
    ReachableInv(s);
  }

  /** Whenever no such step is left, map and batch are empty and every accepted directive was executed
      or overwritten by a later one, never both. */
  lemma AssistedToTheEnd(s: State, steps: seq<Step>, s': State)
    requires Reachable(s) && AssistedRun(s, steps, s') && !CanBeAssisted(s')
    ensures Clear(s') && AllSettled(s'.book) && s.book.accepted <= s'.book.accepted
  {
    AssistedRunIsBounded(s, steps, s');
    if !Clear(s') {
      NeverStuck(s');
    }
    ClearIsSettled(s');
  }

  lemma ClearingRun(s: State) returns (steps: seq<Step>, s': State)
    requires Reachable(s)
    ensures AssistedRun(s, steps, s') && Clear(s')
    decreases Backlog(s) + HolderSteps(s)
  {
    if Clear(s) {
      steps, s' := [], s;
    } else {
      var step := NextAssist(s);
      var rest;
      rest, s' := ClearingRun(Apply(s, step));
      steps := [step] + rest;
      assert steps[1..] == rest;
    }
  }

  lemma NextAssist(s: State) returns (step: Step)
    requires Reachable(s) && !Clear(s)
    ensures Enabled(s, step) && Assists(s, step) && Reachable(Apply(s, step))
    ensures Backlog(Apply(s, step)) + HolderSteps(Apply(s, step)) < Backlog(s) + HolderSteps(s)
  {
    NeverStuck(s);
    step :| Enabled(s, step) && Assists(s, step);
    ReachableInv(s);
    AssistStep(s, step);
    ReachableStep(s, step, Apply(s, step));
  }

  /** From every reachable state, open or closed: at most Backlog worker steps and the steps that
      release the mutex clear map and batch and settle every directive accepted so far. */
  lemma BacklogClears(s: State)
    requires Reachable(s)
    ensures exists steps, s' ::
        && AssistedRun(s, steps, s') && Clear(s') && AllSettled(s'.book) && s.book.accepted <= s'.book.accepted
        && LoopSteps(steps) <= Backlog(s) && |steps| <= LoopSteps(steps) + HolderSteps(s)
    ensures !s.ctl.lock.ByDispatch? ==> Backlog(s) == WorkLeft(s)
  {
    var steps, s' := ClearingRun(s);
    AssistedRunIsBounded(s, steps, s');
    ClearIsSettled(s');
  }

  // ---------------------------------------------------------------------------------------
  // Feedback
  // ---------------------------------------------------------------------------------------

  /** As long as nobody reads it: the feedback holds the first executions, as many as fit. */
  ghost predicate FirstReported(s: State) {
    s.reports.feedback
      == s.book.executed[..if |s.book.executed| < s.reports.capacity then |s.book.executed| else s.reports.capacity]
  }

  lemma FirstReportedStep(s: State, step: Step)
    requires FirstReported(s) && Enabled(s, step) && step != ReadFeedback
    ensures FirstReported(Apply(s, step))
  {
    match step
    case Loop(Execute(id, ok)) =>
      var n := |s.book.executed|;
      var s' := Apply(s, step);
      var cap := s.reports.capacity;
      assert cap <= n ==> s'.book.executed[..cap] == s.book.executed[..cap];
      assert s'.book.executed[..n] == s.book.executed && s'.book.executed[..n + 1] == s'.book.executed;
    case _ =>
  }

  /** In a run in which nobody reads them, the reports are of the first executions, in order, until
      the buffer is full. */
  lemma FirstExecutionsReported(feedbackCap: nat, steps: seq<Step>, s: State)
    requires Run(Init(feedbackCap), steps, s) && ReadFeedback !in steps
    ensures s.reports.capacity == feedbackCap && FirstReported(s)
  {
    UnreadFeedback(Init(feedbackCap), steps, s);
  }

  lemma {:induction false} UnreadFeedback(s: State, steps: seq<Step>, s': State)
    requires FirstReported(s) && Run(s, steps, s') && ReadFeedback !in steps
    ensures FirstReported(s') && s'.reports.capacity == s.reports.capacity
    decreases |steps|
  {
    if steps != [] {
      assert steps[0] in steps && forall step <- steps[1..] :: step in steps;
      FirstReportedStep(s, steps[0]);
      UnreadFeedback(Apply(s, steps[0]), steps[1..], s');
    }
  }
}
