/** The coalescing actuator (internal/actuator/coalescer.go) as a state machine.

    Any number of `Dispatch` calls, any number of `Close` calls and one worker loop share a
    mutex, an atomic flag, the pending map, a one-slot notify channel and a bounded feedback
    channel. Every atomic action of the Go code is one `Step`; a run is any interleaving. */
module Coalescer {
  import opened Options

  type Thread = nat
  type Service = string

  datatype Directive =
    Directive(active: bool, targetUtilisation: real, scaleFactor: real, costGradient: real)

  datatype Snapshot =
    Snapshot(tick: nat, service: Service, targetUtilisation: real, scaleFactor: real, urgency: real)

  /** A map value: what the code stores, and the ticket it was accepted under. */
  datatype Entry = Entry(snap: Snapshot, ticket: nat)

  datatype Acceptance = Acceptance(snap: Snapshot, caller: Thread)

  datatype Execution = Execution(entry: Entry, ok: bool)

  datatype DispatchPC =
    | Entering                      // about to load `closed` without the mutex
    | Blocked                       // about to lock
    | Checking                      // holds the mutex, about to load `closed` again
    | Writing(todo: set<Service>)   // holds the mutex, in the range loop; at {} about to send
    | Releasing(wrote: bool)        // holds the mutex, about to unlock
    | Returned(wrote: bool)

  datatype Dispatcher = Dispatcher(tick: nat, dirs: map<Service, Directive>, pc: DispatchPC)

  datatype ClosePC =
    | Swapping      // about to compare-and-swap `closed`
    | Lost          // returned nil: another Close won
    | WantBarrier   // won, about to lock
    | InBarrier     // holds the mutex
    | PastBarrier   // about to close the notify channel
    | Waiting       // closed it; waits for the worker or for its context
    | Drained       // returned nil after the worker exited
    | TimedOut      // returned ctx.Err()

  datatype WorkerPC =
    | Idle                    // at `for range a.notify`
    | Sleeping                // in the coalescing window
    | Collecting              // in the inner select loop
    | WantTake(final: bool)   // entering processPending; `final` when the loop ends after it
    | Taking(final: bool)     // holds the mutex
    | Executing(final: bool)  // runs the local batch
    | Exited

  datatype Holder = Free | ByDispatch(thread: Thread) | ByClose(thread: Thread) | ByWorker

  datatype Control = Control(
    closed: bool,
    lock: Holder,
    token: bool,             // the single buffer slot of `notify`
    chanClosed: bool,
    worker: WorkerPC,
    closers: map<Thread, ClosePC>,
    panicked: bool,          // a send on, or a second close of, the closed channel
    winner: Option<Thread>   // history: whose compare-and-swap succeeded
  )

  /** `pending` is the shared map and `batch` the worker's local one. The rest is history: no
      step reads it to decide anything. */
  datatype Book = Book(
    pending: map<Service, Entry>,
    batch: map<Service, Entry>,
    accepted: seq<Acceptance>,
    overwritten: map<nat, nat>,
    executed: seq<Execution>
  )

  datatype Reports = Reports(feedback: seq<Execution>, capacity: nat, failures: nat)

  datatype State = State(
    ctl: Control,
    dispatchers: map<Thread, Dispatcher>,
    book: Book,
    reports: Reports
  )

  function Init(feedbackCap: nat): State {
    State(Control(false, Free, false, false, Idle, map[], false, None),
          map[],
          Book(map[], map[], [], map[], []),
          Reports([], feedbackCap, 0))
  }

  datatype CallerAction = FastCheck | LockDispatch | DoubleCheck | Write(id: Service) | Poke | UnlockDispatch

  datatype CloserAction =
    CompareAndSwap | LockBarrier | UnlockBarrier | CloseNotify | ObserveDone | GiveUp

  datatype LoopAction =
    | ReceiveWake | RangeEnds | WindowOver | CollectToken | CollectClosed | CollectDefault
    | LockTake | TakePending | Execute(id: Service, ok: bool) | FinishBatch

  datatype Step =
    | CallDispatch(tick: nat, dirs: map<Service, Directive>, t: Thread)
    | Caller(t: Thread, call: CallerAction)
    | CallClose(t: Thread)
    | Closer(t: Thread, close: CloserAction)
    | Loop(work: LoopAction)
    | ReadFeedback

  // ---------------------------------------------------------------------------------------
  // Dispatch
  // ---------------------------------------------------------------------------------------

  predicate CallerEnabled(c: Control, d: Dispatcher, a: CallerAction) {
    match a
    case FastCheck => d.pc == Entering
    case LockDispatch => d.pc == Blocked && c.lock.Free?
    case DoubleCheck => d.pc == Checking
    case Write(id) => d.pc.Writing? && id in d.pc.todo && id in d.dirs
    case Poke => d.pc == Writing({})
    case UnlockDispatch => d.pc.Releasing?
  }

  function CallerPC(c: Control, d: Dispatcher, a: CallerAction): DispatchPC
    requires CallerEnabled(c, d, a)
  {
    match a
    case FastCheck => if c.closed then Returned(false) else Blocked
    case LockDispatch => Checking
    case DoubleCheck => if c.closed then Releasing(false) else Writing(d.dirs.Keys)
    case Write(id) => Writing(d.pc.todo - {id})
    case Poke => if c.chanClosed then d.pc else Releasing(true)
    case UnlockDispatch => Returned(d.pc.wrote)
  }

  function CallerControl(c: Control, t: Thread, a: CallerAction): Control {
    match a
    case LockDispatch => c.(lock := ByDispatch(t))
    case Poke => if c.chanClosed then c.(panicked := true) else c.(token := true)
    case UnlockDispatch => c.(lock := Free)
    case _ => c
  }

  function SnapshotOf(tick: nat, id: Service, d: Directive): Snapshot {
    Snapshot(tick, id, d.targetUtilisation, d.scaleFactor, d.costGradient)
  }

  /** `a.pending[id] = snapshot`, with the history of what it accepted and overwrote. */
  function Accept(b: Book, t: Thread, snap: Snapshot): Book {
    var ticket := |b.accepted|;
    b.(pending := b.pending[snap.service := Entry(snap, ticket)],
       accepted := b.accepted + [Acceptance(snap, t)],
       overwritten := if snap.service in b.pending
                      then b.overwritten[b.pending[snap.service].ticket := ticket]
                      else b.overwritten)
  }

  function CallerBook(b: Book, t: Thread, d: Dispatcher, a: CallerAction): Book {
    if a.Write? && a.id in d.dirs && d.dirs[a.id].active
    then Accept(b, t, SnapshotOf(d.tick, a.id, d.dirs[a.id]))
    else b
  }

  // ---------------------------------------------------------------------------------------
  // Close
  // ---------------------------------------------------------------------------------------

  predicate CloserEnabled(c: Control, pc: ClosePC, a: CloserAction) {
    match a
    case CompareAndSwap => pc == Swapping
    case LockBarrier => pc == WantBarrier && c.lock.Free?
    case UnlockBarrier => pc == InBarrier
    case CloseNotify => pc == PastBarrier
    case ObserveDone => pc == Waiting && c.worker.Exited?
    case GiveUp => pc == Waiting
  }

  function ApplyCloser(c: Control, t: Thread, a: CloserAction): Control {
    match a
    case CompareAndSwap =>
      if c.closed then c.(closers := c.closers[t := Lost])
      else c.(closers := c.closers[t := WantBarrier], closed := true, winner := Some(t))
    case LockBarrier => c.(closers := c.closers[t := InBarrier], lock := ByClose(t))
    case UnlockBarrier => c.(closers := c.closers[t := PastBarrier], lock := Free)
    case CloseNotify =>
      if c.chanClosed then c.(panicked := true)
      else c.(closers := c.closers[t := Waiting], chanClosed := true)
    case ObserveDone => c.(closers := c.closers[t := Drained])
    case GiveUp => c.(closers := c.closers[t := TimedOut])
  }

  // ---------------------------------------------------------------------------------------
  // The worker loop
  // ---------------------------------------------------------------------------------------

  predicate LoopEnabled(c: Control, b: Book, a: LoopAction) {
    match a
    case ReceiveWake => c.worker.Idle? && c.token
    case RangeEnds => c.worker.Idle? && !c.token && c.chanClosed
    case WindowOver => c.worker.Sleeping?
    case CollectToken => c.worker.Collecting? && c.token
    case CollectClosed => c.worker.Collecting? && !c.token && c.chanClosed
    case CollectDefault => c.worker.Collecting? && !c.token && !c.chanClosed
    case LockTake => c.worker.WantTake? && c.lock.Free?
    case TakePending => c.worker.Taking?
    case Execute(id, ok) => c.worker.Executing? && id in b.batch
    case FinishBatch => c.worker.Executing? && b.batch == map[]
  }

  function LoopControl(c: Control, b: Book, a: LoopAction): Control
    requires LoopEnabled(c, b, a)
  {
    match a
    case ReceiveWake => c.(worker := Sleeping, token := false)
    case RangeEnds => c.(worker := WantTake(true))
    case WindowOver => c.(worker := Collecting)
    case CollectToken => c.(token := false)
    case CollectClosed => c.(worker := WantTake(true))
    case CollectDefault => c.(worker := WantTake(false))
    case LockTake => c.(worker := Taking(c.worker.final), lock := ByWorker)
    case TakePending => c.(worker := Executing(c.worker.final), lock := Free)
    case Execute(_, _) => c
    case FinishBatch => c.(worker := if c.worker.final then Exited else Idle)
  }

  function Take(b: Book): Book {
    b.(batch := b.pending, pending := map[])
  }

  function RunOne(b: Book, id: Service, ok: bool): Book
    requires id in b.batch
  {
    b.(batch := b.batch - {id}, executed := b.executed + [Execution(b.batch[id], ok)])
  }

  function LoopBook(c: Control, b: Book, a: LoopAction): Book
    requires LoopEnabled(c, b, a)
  {
    match a
    case TakePending => Take(b)
    case Execute(id, ok) => RunOne(b, id, ok)
    case _ => b
  }

  function Report(r: Reports, run: Execution): Reports {
    r.(failures := if run.ok then r.failures else r.failures + 1,
       feedback := if |r.feedback| < r.capacity then r.feedback + [run] else r.feedback)
  }

  // ---------------------------------------------------------------------------------------
  // All steps together
  // ---------------------------------------------------------------------------------------

  predicate Enabled(s: State, step: Step) {
    match step
    case CallDispatch(_, _, t) => t !in s.dispatchers
    case Caller(t, a) => t in s.dispatchers && CallerEnabled(s.ctl, s.dispatchers[t], a)
    case CallClose(t) => t !in s.ctl.closers
    case Closer(t, a) => t in s.ctl.closers && CloserEnabled(s.ctl, s.ctl.closers[t], a)
    case Loop(a) => LoopEnabled(s.ctl, s.book, a)
    case ReadFeedback => s.reports.feedback != []
  }

  function Apply(s: State, step: Step): State
    requires Enabled(s, step)
  {
    match step
    case CallDispatch(tick, dirs, t) =>
      s.(dispatchers := s.dispatchers[t := Dispatcher(tick, dirs, Entering)])
    case Caller(t, a) =>
      var d := s.dispatchers[t];
      State(CallerControl(s.ctl, t, a),
            s.dispatchers[t := d.(pc := CallerPC(s.ctl, d, a))],
            CallerBook(s.book, t, d, a),
            s.reports)
    case CallClose(t) => s.(ctl := s.ctl.(closers := s.ctl.closers[t := Swapping]))
    case Closer(t, a) => s.(ctl := ApplyCloser(s.ctl, t, a))
    case Loop(a) =>
      s.(ctl := LoopControl(s.ctl, s.book, a),
         book := LoopBook(s.ctl, s.book, a),
         reports := if a.Execute? then Report(s.reports, Execution(s.book.batch[a.id], a.ok))
                    else s.reports)
    case ReadFeedback => s.(reports := s.reports.(feedback := s.reports.feedback[1..]))
  }

  /** `steps` is an interleaving that leads from `s` to `s'`. */
  ghost predicate Run(s: State, steps: seq<Step>, s': State)
    decreases |steps|
  {
    if steps == [] then s == s'
    else Enabled(s, steps[0]) && Run(Apply(s, steps[0]), steps[1..], s')
  }

  ghost predicate Reachable(s: State) {
    exists feedbackCap, steps :: Run(Init(feedbackCap), steps, s)
  }

  // ---------------------------------------------------------------------------------------
  // The invariant, part 1: who may be where
  // ---------------------------------------------------------------------------------------

  predicate HoldsMutex(pc: DispatchPC) {
    pc.Checking? || pc.Writing? || pc.Releasing?
  }

  predicate Won(pc: ClosePC) {
    !pc.Swapping? && !pc.Lost?
  }

  predicate AfterBarrier(pc: ClosePC) {
    Won(pc) && !pc.WantBarrier?
  }

  predicate AfterCloseNotify(pc: ClosePC) {
    pc.Waiting? || pc.Drained? || pc.TimedOut?
  }

  /** The winning Close has taken the mutex: every Dispatch is now outside, or sees `closed`. */
  predicate Sealed(c: Control) {
    c.winner.Some? && c.winner.value in c.closers && AfterBarrier(c.closers[c.winner.value])
  }

  predicate Final(w: WorkerPC) {
    w.Exited? || ((w.WantTake? || w.Taking? || w.Executing?) && w.final)
  }

  ghost predicate DispatchMutex(c: Control, ds: map<Thread, Dispatcher>) {
    && (forall t <- ds :: HoldsMutex(ds[t].pc) <==> c.lock == ByDispatch(t))
    && (c.lock.ByDispatch? ==> c.lock.thread in ds)
  }

  ghost predicate CloseMutex(c: Control) {
    && (forall t <- c.closers :: c.closers[t].InBarrier? <==> c.lock == ByClose(t))
    && (c.lock.ByClose? ==> c.lock.thread in c.closers)
    && (c.worker.Taking? <==> c.lock.ByWorker?)
  }

  ghost predicate Closing(c: Control) {
    && (c.closed <==> c.winner.Some?)
    && (c.winner.Some? ==> c.winner.value in c.closers)
    && (forall t <- c.closers :: Won(c.closers[t]) <==> c.winner == Some(t))
    && (c.chanClosed <==> c.winner.Some? && AfterCloseNotify(c.closers[c.winner.value]))
    && (Final(c.worker) ==> c.chanClosed && !c.token)
    && (forall t <- c.closers :: c.closers[t].Drained? ==> c.worker.Exited?)
    && !c.panicked
  }

  ghost predicate NoWriterOnceSealed(c: Control, ds: map<Thread, Dispatcher>) {
    Sealed(c) ==> forall t <- ds :: !ds[t].pc.Writing?
  }

  /** The Dispatch that holds the mutex has passed its double check and not yet sent. */
  predicate WriterInside(s: State) {
    s.ctl.lock.ByDispatch? && s.ctl.lock.thread in s.dispatchers
    && s.dispatchers[s.ctl.lock.thread].pc.Writing?
  }

  predicate WorkerOnItsWay(w: WorkerPC) {
    w.Sleeping? || w.Collecting? || w.WantTake? || w.Taking?
  }

  ghost predicate Awake(s: State) {
    && (s.book.pending != map[] ==> s.ctl.token || WorkerOnItsWay(s.ctl.worker) || WriterInside(s))
    && (s.book.batch != map[] ==> s.ctl.worker.Executing?)
  }

  ghost predicate Controlled(s: State) {
    && DispatchMutex(s.ctl, s.dispatchers)
    && CloseMutex(s.ctl)
    && Closing(s.ctl)
    && NoWriterOnceSealed(s.ctl, s.dispatchers)
    && Awake(s)
  }

  lemma CallerKeepsControl(s: State, t: Thread, a: CallerAction)
    requires Controlled(s) && Enabled(s, Caller(t, a))
    ensures Controlled(Apply(s, Caller(t, a)))
  {
  }

  lemma CloserKeepsMutex(s: State, t: Thread, a: CloserAction)
    requires Controlled(s) && Enabled(s, Closer(t, a))
    ensures DispatchMutex(Apply(s, Closer(t, a)).ctl, s.dispatchers) && CloseMutex(Apply(s, Closer(t, a)).ctl)
  {
  }

  lemma CloserKeepsClosing(s: State, t: Thread, a: CloserAction)
    requires Controlled(s) && Enabled(s, Closer(t, a))
    ensures Closing(Apply(s, Closer(t, a)).ctl)
  {
  }

  lemma CloserKeepsSeal(s: State, t: Thread, a: CloserAction)
    requires Controlled(s) && Enabled(s, Closer(t, a))
    ensures NoWriterOnceSealed(Apply(s, Closer(t, a)).ctl, s.dispatchers) && Awake(Apply(s, Closer(t, a)))
  {
  }

  lemma CloserKeepsControl(s: State, t: Thread, a: CloserAction)
    requires Controlled(s) && Enabled(s, Closer(t, a))
    ensures Controlled(Apply(s, Closer(t, a)))
  {
    CloserKeepsMutex(s, t, a);
    CloserKeepsClosing(s, t, a);
    CloserKeepsSeal(s, t, a);
  }

  lemma LoopKeepsControl(s: State, a: LoopAction)
    requires Controlled(s) && Enabled(s, Loop(a))
    ensures Controlled(Apply(s, Loop(a)))
  {
  }

  lemma ControlKept(s: State, step: Step)
    requires Controlled(s) && Enabled(s, step)
    ensures Controlled(Apply(s, step))
  {
    match step
    case CallDispatch(_, _, _) =>
    case Caller(t, a) => CallerKeepsControl(s, t, a);
    case CallClose(_) =>
    case Closer(t, a) => CloserKeepsControl(s, t, a);
    case Loop(a) => LoopKeepsControl(s, a);
    case ReadFeedback =>
  }

  // ---------------------------------------------------------------------------------------
  // The invariant, part 2: what became of every accepted directive
  // ---------------------------------------------------------------------------------------

  ghost predicate Genuine(b: Book, e: Entry) {
    e.ticket < |b.accepted| && b.accepted[e.ticket].snap == e.snap
  }

  ghost predicate EntriesGenuine(b: Book) {
    && (forall k <- b.pending :: Genuine(b, b.pending[k]) && b.pending[k].snap.service == k)
    && (forall k <- b.batch :: Genuine(b, b.batch[k]) && b.batch[k].snap.service == k)
    && (forall n | 0 <= n < |b.executed| :: Genuine(b, b.executed[n].entry))
  }

  predicate IsPending(b: Book, i: nat)
    requires i < |b.accepted|
  {
    var k := b.accepted[i].snap.service;
    k in b.pending && b.pending[k].ticket == i
  }

  predicate InBatch(b: Book, i: nat)
    requires i < |b.accepted|
  {
    var k := b.accepted[i].snap.service;
    k in b.batch && b.batch[k].ticket == i
  }

  ghost predicate IsExecuted(b: Book, i: nat) {
    exists n :: 0 <= n < |b.executed| && b.executed[n].entry.ticket == i
  }

  predicate IsOverwritten(b: Book, i: nat) {
    i in b.overwritten
  }

  /** Per service: executed in acceptance order, everything executed before everything in the
      batch, and that before what is pending. */
  ghost predicate Ordered(b: Book) {
    && (forall m, n | 0 <= m < n < |b.executed| ::
          b.executed[m].entry.snap.service == b.executed[n].entry.snap.service
          ==> b.executed[m].entry.ticket < b.executed[n].entry.ticket)
    && (forall n | 0 <= n < |b.executed| ::
          var e := b.executed[n].entry;
          && (e.snap.service in b.batch ==> e.ticket < b.batch[e.snap.service].ticket)
          && (e.snap.service in b.pending ==> e.ticket < b.pending[e.snap.service].ticket))
    && (forall k <- b.batch :: k in b.pending ==> b.batch[k].ticket < b.pending[k].ticket)
  }

  ghost predicate OverwritesLater(b: Book) {
    forall i <- b.overwritten ::
      && i < b.overwritten[i] < |b.accepted|
      && b.accepted[b.overwritten[i]].snap.service == b.accepted[i].snap.service
      && !IsPending(b, i) && !InBatch(b, i) && !IsExecuted(b, i)
  }

  ghost predicate NothingLost(b: Book) {
    forall i | 0 <= i < |b.accepted| ::
      IsPending(b, i) || InBatch(b, i) || IsExecuted(b, i) || IsOverwritten(b, i)
  }

  ghost predicate Ledger(b: Book) {
    EntriesGenuine(b) && Ordered(b) && OverwritesLater(b) && NothingLost(b)
  }

  /** The write touches only the tickets of its own service. */
  lemma AcceptMoves(b: Book, t: Thread, snap: Snapshot)
    requires EntriesGenuine(b)
    ensures var b' := Accept(b, t, snap);
      && b'.accepted[|b.accepted|] == Acceptance(snap, t)
      && (forall i | 0 <= i < |b.accepted| :: b'.accepted[i] == b.accepted[i])
      && (forall i | 0 <= i < |b.accepted| :: InBatch(b', i) <==> InBatch(b, i))
      && (forall i | 0 <= i <= |b.accepted| :: IsExecuted(b', i) <==> IsExecuted(b, i))
      && !IsExecuted(b', |b.accepted|)
      && (forall i | 0 <= i < |b.accepted| ::
            IsPending(b', i) <==> IsPending(b, i) && b.accepted[i].snap.service != snap.service)
      && IsPending(b', |b.accepted|)
  {
  }

  lemma AcceptKeepsEntries(b: Book, t: Thread, snap: Snapshot)
    requires EntriesGenuine(b) && Ordered(b)
    ensures EntriesGenuine(Accept(b, t, snap)) && Ordered(Accept(b, t, snap))
  {
    var b' := Accept(b, t, snap);
    assert forall e | Genuine(b, e) :: Genuine(b', e);
  }

  lemma AcceptOverwritesLater(b: Book, t: Thread, snap: Snapshot)
    requires EntriesGenuine(b) && Ordered(b) && OverwritesLater(b)
    ensures OverwritesLater(Accept(b, t, snap))
  {
    AcceptMoves(b, t, snap);
    var b' := Accept(b, t, snap);
    forall i <- b'.overwritten
      ensures i < b'.overwritten[i] < |b'.accepted|
      ensures b'.accepted[b'.overwritten[i]].snap.service == b'.accepted[i].snap.service
      ensures !IsPending(b', i) && !InBatch(b', i) && !IsExecuted(b', i)
    {
      if snap.service in b.pending && b.pending[snap.service].ticket == i {
        assert IsPending(b, i);
      } else {
        assert i in b.overwritten;
      }
    }
  }

  lemma AcceptLosesNothing(b: Book, t: Thread, snap: Snapshot)
    requires EntriesGenuine(b) && NothingLost(b)
    ensures NothingLost(Accept(b, t, snap))
  {
    AcceptMoves(b, t, snap);
  }

  lemma AcceptKeepsLedger(b: Book, t: Thread, snap: Snapshot)
    requires Ledger(b)
    ensures Ledger(Accept(b, t, snap))
  {
    AcceptKeepsEntries(b, t, snap);
    AcceptOverwritesLater(b, t, snap);
    AcceptLosesNothing(b, t, snap);
  }

  lemma TakeKeepsLedger(b: Book)
    requires Ledger(b) && b.batch == map[]
    ensures Ledger(Take(b))
  {
    var b' := Take(b);
    forall i | 0 <= i < |b.accepted|
      ensures InBatch(b', i) <==> IsPending(b, i)
      ensures IsExecuted(b', i) <==> IsExecuted(b, i)
    {
    }
  }

  /** Executing moves one ticket from the batch to the executed ones. */
  lemma RunOneMoves(b: Book, id: Service, ok: bool)
    requires EntriesGenuine(b) && id in b.batch
    ensures var b' := RunOne(b, id, ok);
      && (forall i | 0 <= i < |b.accepted| :: IsPending(b', i) <==> IsPending(b, i))
      && (forall i | 0 <= i < |b.accepted| :: InBatch(b', i) <==> InBatch(b, i) && i != b.batch[id].ticket)
      && (forall i | 0 <= i < |b.accepted| :: IsExecuted(b', i) <==> IsExecuted(b, i) || i == b.batch[id].ticket)
  {
    var b' := RunOne(b, id, ok);
    assert b'.executed[|b.executed|].entry == b.batch[id];
    forall i | 0 <= i < |b.accepted| && IsExecuted(b, i)
      ensures IsExecuted(b', i)
    {
      var n :| 0 <= n < |b.executed| && b.executed[n].entry.ticket == i;
      assert b'.executed[n].entry.ticket == i;
    }
  }

  lemma RunOneKeepsEntries(b: Book, id: Service, ok: bool)
    requires EntriesGenuine(b) && Ordered(b) && id in b.batch
    ensures EntriesGenuine(RunOne(b, id, ok)) && Ordered(RunOne(b, id, ok))
  {
  }

  lemma RunOneKeepsLedger(b: Book, id: Service, ok: bool)
    requires Ledger(b) && id in b.batch
    ensures Ledger(RunOne(b, id, ok))
  {
    RunOneMoves(b, id, ok);
    RunOneKeepsEntries(b, id, ok);
    assert InBatch(b, b.batch[id].ticket);
  }

  // ---------------------------------------------------------------------------------------
  // The invariant, part 3: accepted is exactly what the dispatching calls asked for
  // ---------------------------------------------------------------------------------------

  /** Dispatch `d` has put its directive for `id` into the map. */
  predicate HasWritten(d: Dispatcher, id: Service) {
    && id in d.dirs && d.dirs[id].active
    && ((d.pc.Writing? && id !in d.pc.todo)
        || (d.pc.Releasing? && d.pc.wrote) || (d.pc.Returned? && d.pc.wrote))
  }

  ghost predicate AcceptedFrom(b: Book, t: Thread, id: Service) {
    exists i :: 0 <= i < |b.accepted| && b.accepted[i].caller == t && b.accepted[i].snap.service == id
  }

  ghost predicate OnlyRequested(b: Book, ds: map<Thread, Dispatcher>) {
    forall i | 0 <= i < |b.accepted| ::
      var a := b.accepted[i];
      && a.caller in ds
      && HasWritten(ds[a.caller], a.snap.service)
      && a.snap == SnapshotOf(ds[a.caller].tick, a.snap.service, ds[a.caller].dirs[a.snap.service])
  }

  ghost predicate AtMostOnce(b: Book) {
    forall i, j | 0 <= i < j < |b.accepted| ::
      b.accepted[i].caller != b.accepted[j].caller
      || b.accepted[i].snap.service != b.accepted[j].snap.service
  }

  ghost predicate AllRequested(b: Book, ds: map<Thread, Dispatcher>) {
    forall t, id | t in ds && HasWritten(ds[t], id) :: AcceptedFrom(b, t, id)
  }

  ghost predicate Provenance(b: Book, ds: map<Thread, Dispatcher>) {
    OnlyRequested(b, ds) && AtMostOnce(b) && AllRequested(b, ds)
  }

  lemma MoveKeepsProvenance(b: Book, ds: map<Thread, Dispatcher>, t: Thread, d: Dispatcher)
    requires Provenance(b, ds) && t in ds
    requires forall k :: HasWritten(d, k) <==> HasWritten(ds[t], k)
    requires d.dirs == ds[t].dirs && d.tick == ds[t].tick
    ensures Provenance(b, ds[t := d])
  {
  }

  lemma AcceptKeepsProvenance(b: Book, ds: map<Thread, Dispatcher>, t: Thread, id: Service, b': Book, d': Dispatcher)
    requires Provenance(b, ds) && t in ds && id in ds[t].dirs && ds[t].dirs[id].active && !HasWritten(ds[t], id)
    requires b'.accepted == b.accepted + [Acceptance(SnapshotOf(ds[t].tick, id, ds[t].dirs[id]), t)]
    requires d'.dirs == ds[t].dirs && d'.tick == ds[t].tick
    requires forall k :: HasWritten(d', k) <==> HasWritten(ds[t], k) || k == id
    ensures Provenance(b', ds[t := d'])
  {
    var ds' := ds[t := d'];
    assert b'.accepted[|b.accepted|].snap.service == id;
    forall u, k | u in ds' && HasWritten(ds'[u], k)
      ensures AcceptedFrom(b', u, k)
    {
      if u != t || k != id {
        assert HasWritten(ds[u], k);
        var i :| 0 <= i < |b.accepted| && b.accepted[i].caller == u && b.accepted[i].snap.service == k;
        assert b'.accepted[i].caller == u;
      }
    }
  }

  lemma WriteKeepsProvenance(b: Book, ds: map<Thread, Dispatcher>, t: Thread, id: Service)
    requires Provenance(b, ds) && t in ds && ds[t].pc.Writing? && id in ds[t].pc.todo && id in ds[t].dirs
    ensures Provenance(CallerBook(b, t, ds[t], Write(id)),
                       ds[t := ds[t].(pc := Writing(ds[t].pc.todo - {id}))])
  {
    var d := ds[t];
    var d' := d.(pc := Writing(d.pc.todo - {id}));
    if d.dirs[id].active {
      AcceptKeepsProvenance(b, ds, t, id, CallerBook(b, t, d, Write(id)), d');
    } else {
      MoveKeepsProvenance(b, ds, t, d');
    }
  }

  lemma CallerKeepsProvenance(s: State, t: Thread, a: CallerAction)
    requires Provenance(s.book, s.dispatchers) && Enabled(s, Caller(t, a))
    ensures var s' := Apply(s, Caller(t, a)); Provenance(s'.book, s'.dispatchers)
  {
    match a
    case Write(id) => WriteKeepsProvenance(s.book, s.dispatchers, t, id);
    case _ => MoveKeepsProvenance(s.book, s.dispatchers, t, Apply(s, Caller(t, a)).dispatchers[t]);
  }

  function FailuresIn(runs: seq<Execution>): nat {
    if runs == [] then 0
    else FailuresIn(runs[..|runs| - 1]) + if runs[|runs| - 1].ok then 0 else 1
  }

  ghost predicate Reported(s: State) {
    && s.reports.failures == FailuresIn(s.book.executed)
    && |s.reports.feedback| <= s.reports.capacity
    && (forall run <- s.reports.feedback :: run in s.book.executed)
  }

  // ---------------------------------------------------------------------------------------
  // Every run keeps the invariant
  // ---------------------------------------------------------------------------------------

  ghost predicate Inv(s: State) {
    && Controlled(s) && Ledger(s.book) && Provenance(s.book, s.dispatchers) && Reported(s)
    && TodosKnown(s.dispatchers)
  }

  /** The range loop of a Dispatch only visits its own directives. */
  predicate TodosKnown(ds: map<Thread, Dispatcher>) {
    forall t <- ds :: ds[t].pc.Writing? ==> ds[t].pc.todo <= ds[t].dirs.Keys
  }

  lemma TodosKept(s: State, step: Step)
    requires TodosKnown(s.dispatchers) && Enabled(s, step)
    ensures TodosKnown(Apply(s, step).dispatchers)
  {
  }

  lemma LedgerKept(s: State, step: Step)
    requires Controlled(s) && Ledger(s.book) && Enabled(s, step)
    ensures Ledger(Apply(s, step).book)
  {
    match step
    case Caller(t, a) =>
      var d := s.dispatchers[t];
      if a.Write? && d.dirs[a.id].active {
        AcceptKeepsLedger(s.book, t, SnapshotOf(d.tick, a.id, d.dirs[a.id]));
      }
    case Loop(TakePending) => TakeKeepsLedger(s.book);
    case Loop(Execute(id, ok)) => RunOneKeepsLedger(s.book, id, ok);
    case _ =>
  }

  lemma ProvenanceKept(s: State, step: Step)
    requires Provenance(s.book, s.dispatchers) && Enabled(s, step)
    ensures var s' := Apply(s, step); Provenance(s'.book, s'.dispatchers)
  {
    match step
    case Caller(t, a) => CallerKeepsProvenance(s, t, a);
    case _ =>
      var s' := Apply(s, step);
      assert forall t, id | t in s'.dispatchers && HasWritten(s'.dispatchers[t], id) ::
          t in s.dispatchers && HasWritten(s.dispatchers[t], id);
      assert forall t, id :: AcceptedFrom(s'.book, t, id) <==> AcceptedFrom(s.book, t, id);
  }

  lemma RunIsReported(s: State, id: Service, ok: bool)
    requires Reported(s) && Enabled(s, Loop(Execute(id, ok)))
    ensures Reported(Apply(s, Loop(Execute(id, ok))))
  {
    var run := Execution(s.book.batch[id], ok);
    assert (s.book.executed + [run])[..|s.book.executed|] == s.book.executed;
  }

  lemma ReportedKept(s: State, step: Step)
    requires Reported(s) && Enabled(s, step)
    ensures Reported(Apply(s, step))
  {
    match step
    case Loop(Execute(id, ok)) => RunIsReported(s, id, ok);
    case _ =>
  }

  lemma StepKeepsInv(s: State, step: Step)
    requires Inv(s) && Enabled(s, step)
    ensures Inv(Apply(s, step))
  {
    ControlKept(s, step);
    LedgerKept(s, step);
    ProvenanceKept(s, step);
    ReportedKept(s, step);
    TodosKept(s, step);
  }

  lemma {:induction false} RunKeepsInv(s: State, steps: seq<Step>, s': State)
    requires Inv(s) && Run(s, steps, s')
    ensures Inv(s')
    decreases |steps|
  {
    if steps != [] {
      StepKeepsInv(s, steps[0]);
      RunKeepsInv(Apply(s, steps[0]), steps[1..], s');
    }
  }

  /** Every state of every interleaving satisfies the invariant. */
  lemma ReachableInv(s: State)
    requires Reachable(s)
    ensures Inv(s)
  {
    var feedbackCap, steps :| Run(Init(feedbackCap), steps, s);
    RunKeepsInv(Init(feedbackCap), steps, s);
  }

  lemma {:induction false} RunSnoc(s: State, steps: seq<Step>, m: State, step: Step)
    requires Run(s, steps, m) && Enabled(m, step)
    ensures Run(s, steps + [step], Apply(m, step))
    decreases |steps|
  {
    var all := steps + [step];
    if steps == [] {
      assert all[1..] == [];
    } else {
      RunSnoc(Apply(s, steps[0]), steps[1..], m, step);
      assert all[1..] == steps[1..] + [step];
    }
  }

  lemma ReachableStep(s: State, step: Step, s': State)
    requires Reachable(s) && Enabled(s, step) && s' == Apply(s, step)
    ensures Reachable(s')
  {
    var feedbackCap, steps :| Run(Init(feedbackCap), steps, s);
    RunSnoc(Init(feedbackCap), steps, s, step);
  }

  // ---------------------------------------------------------------------------------------
  // Main results
  // ---------------------------------------------------------------------------------------

  /** No interleaving sends on, or closes, an already closed notify channel. */
  lemma NeverPanics(s: State)
    requires Reachable(s)
    ensures !s.ctl.panicked
    ensures forall t <- s.dispatchers :: s.dispatchers[t].pc.Writing? ==> !s.ctl.chanClosed
  {
    ReachableInv(s);
  }

  /** Work never sits in the map with nobody on the way to it. A token buffered before the
      channel is closed survives the close, so this needs no appeal to the final drain. */
  lemma NoLostWakeUp(s: State)
    requires Reachable(s)
    requires s.book.pending != map[] && s.ctl.lock.Free?
    ensures s.ctl.token || s.ctl.worker.Sleeping? || s.ctl.worker.Collecting? || s.ctl.worker.WantTake?
  {
    ReachableInv(s);
  }

  function Count(a: bool, b: bool, c: bool, d: bool): nat {
    (if a then 1 else 0) + (if b then 1 else 0) + (if c then 1 else 0) + (if d then 1 else 0)
  }

  /** Every accepted directive is in exactly one place, and one overwritten was overwritten by
      a later accepted directive for the same service. */
  lemma ExactlyOneFate(s: State, i: nat)
    requires Reachable(s) && i < |s.book.accepted|
    ensures Count(IsPending(s.book, i), InBatch(s.book, i), IsExecuted(s.book, i), IsOverwritten(s.book, i)) == 1
    ensures IsOverwritten(s.book, i) ==>
        && i < s.book.overwritten[i] < |s.book.accepted|
        && s.book.accepted[s.book.overwritten[i]].snap.service == s.book.accepted[i].snap.service
  {
    ReachableInv(s);
    var b := s.book;
    if IsExecuted(b, i) {
      var n :| 0 <= n < |b.executed| && b.executed[n].entry.ticket == i;
      assert b.executed[n].entry.snap == b.accepted[i].snap;
    }
  }

  /** Executions of one service follow acceptance order, so none is executed twice, and each
      runs the snapshot that was accepted. */
  lemma ExecutedInAcceptanceOrder(s: State, m: nat, n: nat)
    requires Reachable(s) && m < n < |s.book.executed|
    ensures var e, f := s.book.executed[m].entry, s.book.executed[n].entry;
      && e.ticket != f.ticket
      && (e.snap.service == f.snap.service ==> e.ticket < f.ticket)
      && e.ticket < |s.book.accepted| && e.snap == s.book.accepted[e.ticket].snap
  {
    ReachableInv(s);
  }

  /** Exactly the active directives of the Dispatch calls that got past the double check are
      accepted, each once and unchanged. */
  lemma AcceptedIsWhatWasDispatched(s: State, t: Thread, id: Service)
    requires Reachable(s)
    requires t in s.dispatchers && s.dispatchers[t].pc.Returned?
    ensures AcceptedFrom(s.book, t, id)
        <==> s.dispatchers[t].pc.wrote && id in s.dispatchers[t].dirs && s.dispatchers[t].dirs[id].active
    ensures forall i, j | 0 <= i < |s.book.accepted| && 0 <= j < |s.book.accepted|
        && s.book.accepted[i].caller == s.book.accepted[j].caller == t
        && s.book.accepted[i].snap.service == s.book.accepted[j].snap.service == id :: i == j
    ensures forall i | 0 <= i < |s.book.accepted| && s.book.accepted[i].caller == t
        && s.book.accepted[i].snap.service == id ::
          && s.book.accepted[i].snap.tick == s.dispatchers[t].tick
          && s.book.accepted[i].snap.scaleFactor == s.dispatchers[t].dirs[id].scaleFactor
          && s.book.accepted[i].snap.targetUtilisation == s.dispatchers[t].dirs[id].targetUtilisation
          && s.book.accepted[i].snap.urgency == s.dispatchers[t].dirs[id].costGradient
  {
    ReachableInv(s);
    if AcceptedFrom(s.book, t, id) {
      var i :| 0 <= i < |s.book.accepted| && s.book.accepted[i].caller == t
               && s.book.accepted[i].snap.service == id;
      assert HasWritten(s.dispatchers[t], id);
    }
  }

  lemma SealedStep(s: State, step: Step)
    requires Closing(s.ctl) && NoWriterOnceSealed(s.ctl, s.dispatchers)
    requires Sealed(s.ctl) && Enabled(s, step)
    ensures Sealed(Apply(s, step).ctl)
    ensures Apply(s, step).book.accepted == s.book.accepted
    ensures Apply(s, step).book.pending == s.book.pending || Apply(s, step).book.pending == map[]
  {
    match step
    case Caller(t, a) => assert !a.Write?;
    case Closer(t, a) => assert a == CompareAndSwap || s.ctl.winner == Some(t);
    case _ =>
  }

  /** Once the winning Close has been through the mutex, nothing is accepted and nothing enters
      the map, whatever Dispatch calls are still around. */
  lemma {:induction false} SealedForGood(s: State, steps: seq<Step>, s': State)
    requires Reachable(s) && Sealed(s.ctl) && Run(s, steps, s')
    ensures Sealed(s'.ctl) && s'.book.accepted == s.book.accepted
    ensures s'.book.pending == s.book.pending || s'.book.pending == map[]
    decreases |steps|
  {
    if steps != [] {
      ReachableInv(s);
      SealedStep(s, steps[0]);
      ReachableStep(s, steps[0], Apply(s, steps[0]));
      SealedForGood(Apply(s, steps[0]), steps[1..], s');
    }
  }

  // ---------------------------------------------------------------------------------------
  // Dispatch calls around the compare-and-swap of Close
  // ---------------------------------------------------------------------------------------

  /** The flag is set and `t` has not yet made its first check, or has returned. */
  predicate ShutOut(s: State, t: Thread) {
    s.ctl.closed && (t in s.dispatchers ==> s.dispatchers[t].pc.Entering? || s.dispatchers[t].pc.Returned?)
  }

  lemma ShutOutStep(s: State, step: Step, t: Thread)
    requires ShutOut(s, t) && Enabled(s, step)
    ensures ShutOut(Apply(s, step), t)
  {
    match step
    case Caller(u, a) => assert u == t ==> a == FastCheck;
    case _ =>
  }

  lemma {:induction false} ShutOutForGood(s: State, steps: seq<Step>, s': State, t: Thread)
    requires ShutOut(s, t) && Run(s, steps, s')
    ensures ShutOut(s', t)
    decreases |steps|
  {
    if steps != [] {
      ShutOutStep(s, steps[0], t);
      ShutOutForGood(Apply(s, steps[0]), steps[1..], s', t);
    }
  }

  predicate Inside(s: State, t: Thread) {
    t in s.dispatchers && HoldsMutex(s.dispatchers[t].pc)
  }

  /** In some continuation `t` is in the critical section. */
  ghost predicate MayEnter(s: State, t: Thread) {
    exists steps, s' :: Run(s, steps, s') && Inside(s', t)
  }

  lemma BlockedMayEnter(s: State, t: Thread)
    requires Enabled(s, Caller(t, LockDispatch))
    ensures MayEnter(s, t)
  {
    var s' := Apply(s, Caller(t, LockDispatch));
    assert Run(s', [], s');
    assert [Caller(t, LockDispatch)][1..] == [];
    assert Run(s, [Caller(t, LockDispatch)], s');
    assert Inside(s', t);
  }

  lemma ShutOutNeverEnters(s: State, t: Thread)
    requires ShutOut(s, t)
    ensures !MayEnter(s, t)
  {
    forall steps, s' | Run(s, steps, s')
      ensures !Inside(s', t)
    {
      ShutOutForGood(s, steps, s', t);
    }
  }

  /** After the swap, while the mutex is free: exactly the Dispatch calls that are already past
      their first check can still enter the critical section. */
  lemma EntersAfterSwapIff(s: State, t: Thread)
    requires Reachable(s) && s.ctl.closed && s.ctl.lock.Free?
    ensures MayEnter(s, t) <==> t in s.dispatchers && s.dispatchers[t].pc == Blocked
  {
    if t in s.dispatchers && s.dispatchers[t].pc == Blocked {
      BlockedMayEnter(s, t);
    } else {
      ReachableInv(s);
      ShutOutNeverEnters(s, t);
    }
  }

  /** The flag is set and `t` has not passed its second check, or failed it. */
  predicate ComesTooLate(s: State, t: Thread) {
    && s.ctl.closed
    && (t in s.dispatchers ==>
          var pc := s.dispatchers[t].pc;
          pc.Entering? || pc.Blocked? || pc.Checking? || pc == Releasing(false) || pc == Returned(false))
  }

  lemma TooLateStep(s: State, step: Step, t: Thread)
    requires ComesTooLate(s, t) && Enabled(s, step)
    ensures ComesTooLate(Apply(s, step), t)
  {
    match step
    case Caller(u, a) => assert u == t ==> !a.Write? && !a.Poke?;
    case _ =>
  }

  /** A Dispatch that has not passed its second check when the flag is set never has anything
      accepted, whether or not it still enters the critical section. */
  lemma {:induction false} TooLateForGood(s: State, steps: seq<Step>, s': State, t: Thread, id: Service)
    requires Reachable(s) && ComesTooLate(s, t) && Run(s, steps, s')
    ensures ComesTooLate(s', t) && !AcceptedFrom(s'.book, t, id)
    decreases |steps|
  {
    if steps == [] {
      ReachableInv(s);
    } else {
      TooLateStep(s, steps[0], t);
      ReachableStep(s, steps[0], Apply(s, steps[0]));
      TooLateForGood(Apply(s, steps[0]), steps[1..], s', t, id);
    }
  }

  /** It does happen: a Dispatch past its first check takes the mutex after the swap. */
  lemma DispatchEntersAfterSwap()
    ensures exists s ::
        && Reachable(s) && s.ctl.closed && Enabled(s, Caller(0, LockDispatch))
        && Reachable(Apply(s, Caller(0, LockDispatch))) && Inside(Apply(s, Caller(0, LockDispatch)), 0)
  {
    var s0 := OneDispatchBlocked();
    var s1 := Apply(s0, CallClose(0));
    ReachableStep(s0, CallClose(0), s1);
    var s2 := Apply(s1, Closer(0, CompareAndSwap));
    ReachableStep(s1, Closer(0, CompareAndSwap), s2);
    ReachableStep(s2, Caller(0, LockDispatch), Apply(s2, Caller(0, LockDispatch)));
  }

  lemma OneDispatchBlocked() returns (s: State)
    ensures Reachable(s) && s.ctl == Init(0).ctl && 0 in s.dispatchers && s.dispatchers[0].pc == Blocked
  {
    assert Run(Init(0), [], Init(0));
    var s1 := Apply(Init(0), CallDispatch(1, map[], 0));
    ReachableStep(Init(0), CallDispatch(1, map[], 0), s1);
    s := Apply(s1, Caller(0, FastCheck));
    ReachableStep(s1, Caller(0, FastCheck), s);
  }

  lemma LastAcceptedRunsLast(b: Book, i: nat)
    requires Ledger(b) && b.pending == map[] && b.batch == map[]
    requires i < |b.accepted| && IsLastFor(b, i)
    ensures LastRun(b, b.accepted[i].snap.service, i)
  {
    assert IsExecuted(b, i);
    var n :| 0 <= n < |b.executed| && b.executed[n].entry.ticket == i;
    assert Genuine(b, b.executed[n].entry);
    forall m | n < m < |b.executed|
      ensures b.executed[m].entry.snap.service != b.accepted[i].snap.service
    {
      assert Genuine(b, b.executed[m].entry);
    }
  }

  lemma ExitIsEmpty(s: State)
    requires Controlled(s)
    requires s.ctl.worker.Exited? || exists t :: CloseAt(s.ctl, t, Drained)
    ensures s.book.pending == map[] && s.book.batch == map[] && s.ctl.worker.Exited?
  {
  }

  /** What holds when the worker is gone, in particular when the winning Close returns nil:
      every accepted directive was executed or overwritten, never both, and the last directive
      accepted for a service is the last one executed for it. */
  lemma DrainedAtExit(s: State)
    requires Reachable(s)
    requires s.ctl.worker.Exited? || exists t :: CloseAt(s.ctl, t, Drained)
    ensures s.book.pending == map[] && s.book.batch == map[] && s.ctl.worker.Exited?
    ensures forall i | 0 <= i < |s.book.accepted| ::
        IsExecuted(s.book, i) <==> !IsOverwritten(s.book, i)
    ensures forall i | 0 <= i < |s.book.accepted| && IsLastFor(s.book, i) ::
        LastRun(s.book, s.book.accepted[i].snap.service, i)
  {
    ReachableInv(s);
    ExitIsEmpty(s);
    forall i | 0 <= i < |s.book.accepted| && IsLastFor(s.book, i)
      ensures LastRun(s.book, s.book.accepted[i].snap.service, i)
    {
      LastAcceptedRunsLast(s.book, i);
    }
  }

  predicate CloseAt(c: Control, t: Thread, pc: ClosePC) {
    t in c.closers && c.closers[t] == pc
  }

  ghost predicate IsLastFor(b: Book, i: nat)
    requires i < |b.accepted|
  {
    forall j | i < j < |b.accepted| :: b.accepted[j].snap.service != b.accepted[i].snap.service
  }

  /** Ticket `i` was executed, and no directive for `id` was executed after it. */
  ghost predicate LastRun(b: Book, id: Service, i: nat) {
    exists n :: 0 <= n < |b.executed| && b.executed[n].entry.ticket == i
      && forall m | n < m < |b.executed| :: b.executed[m].entry.snap.service != id
  }

  function Alone(dirs: map<Service, Directive>, pc: DispatchPC, lock: Holder): State {
    State(Init(0).ctl.(lock := lock), map[0 := Dispatcher(1, dirs, pc)], Init(0).book, Init(0).reports)
  }

  lemma AloneStep(dirs: map<Service, Directive>, pc: DispatchPC, lock: Holder, a: CallerAction, pc': DispatchPC)
    requires Reachable(Alone(dirs, pc, lock)) && Enabled(Alone(dirs, pc, lock), Caller(0, a))
    requires !a.Write? && !a.Poke? && !a.UnlockDispatch?
    requires pc' == CallerPC(Init(0).ctl.(lock := lock), Dispatcher(1, dirs, pc), a)
    ensures Reachable(Alone(dirs, pc', if a.LockDispatch? then ByDispatch(0) else lock))
  {
    var s' := Alone(dirs, pc', if a.LockDispatch? then ByDispatch(0) else lock);
    assert s'.dispatchers == Alone(dirs, pc, lock).dispatchers[0 := Dispatcher(1, dirs, pc')];
    ReachableStep(Alone(dirs, pc, lock), Caller(0, a), s');
  }

  lemma OneDispatchInside(id: Service, d: Directive) returns (s: State)
    requires d.active
    ensures Reachable(s) && s.ctl == Init(0).ctl.(lock := ByDispatch(0))
    ensures |s.book.accepted| == 1 && IsPending(s.book, 0)
  {
    var dirs := map[id := d];
    assert Run(Init(0), [], Init(0));
    assert map[][0 := Dispatcher(1, dirs, Entering)] == map[0 := Dispatcher(1, dirs, Entering)];
    ReachableStep(Init(0), CallDispatch(1, dirs, 0), Alone(dirs, Entering, Free));
    AloneStep(dirs, Entering, Free, FastCheck, Blocked);
    AloneStep(dirs, Blocked, Free, LockDispatch, Checking);
    AloneStep(dirs, Checking, ByDispatch(0), DoubleCheck, Writing(dirs.Keys));
    var inside := Alone(dirs, Writing(dirs.Keys), ByDispatch(0));
    s := Apply(inside, Caller(0, Write(id)));
    ReachableStep(inside, Caller(0, Write(id)), s);
  }

  /** Only the winner's nil means drained: a Close that loses the compare-and-swap returns nil at
      once, possibly with an accepted directive still in the map. */
  lemma LoserMayReturnBeforeDrain(id: Service, d: Directive)
    requires d.active
    ensures exists s ::
        Reachable(s) && CloseAt(s.ctl, 1, Lost) && |s.book.accepted| == 1 && IsPending(s.book, 0)
  {
    var s0 := OneDispatchInside(id, d);
    var s1 := Apply(s0, CallClose(0));
    ReachableStep(s0, CallClose(0), s1);
    var s2 := Apply(s1, CallClose(1));
    ReachableStep(s1, CallClose(1), s2);
    var s3 := Apply(s2, Closer(0, CompareAndSwap));
    ReachableStep(s2, Closer(0, CompareAndSwap), s3);
    var s4 := Apply(s3, Closer(1, CompareAndSwap));
    ReachableStep(s3, Closer(1, CompareAndSwap), s4);
  }

  /** The failure counter counts the failed executions, feedback never exceeds its buffer and
      only reports what was executed. */
  lemma ReportsAreTrue(s: State)
    requires Reachable(s)
    ensures s.reports.failures == FailuresIn(s.book.executed)
    ensures |s.reports.feedback| <= s.reports.capacity
    ensures forall run <- s.reports.feedback :: run in s.book.executed
  {
    ReachableInv(s);
  }
}
