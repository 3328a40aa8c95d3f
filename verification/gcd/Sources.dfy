/** Timer sources and serial queues as atomic steps over one shared state: creators,
    resumers, cancellers, one thread per running source, one worker per serial queue. */
module Sources {
  import opened Wrappers

  const POOL_CAP: nat := 256

  /** A pool slot.  `inc` counts how often it has been claimed; `pending` is a thread that
      exists but whose handle has not been published yet. */
  datatype Slot = Slot(
    inc: nat, queue: nat, hasEvent: bool, hasCancel: bool, armed: bool, rearm: bool,
    running: bool, starting: bool, pending: Option<nat>, thread: Option<nat>,
    retired: bool, retiredAt: nat, delivered: bool)

  /** Where a source thread stands; `Enter` to `Leave` are inside a delivery. */
  datatype Pc =
    | Top | Body | Waiting(timed: bool) | Woke(timeout: bool) | Firing
    | Enter | Queueing | Waking | Awaiting | Inline | Leave
    | Closing | Exited

  /** How far the thread's current job has come. */
  datatype Stage = Idle | InQueue | Took | Decided | Calling | Ran | Signalled

  /** `saw` records that the thread found its source retired when it closed. */
  datatype Thread = Thread(slot: nat, inc: nat, queue: nat, pc: Pc, cleanup: bool, stage: Stage, saw: bool)

  /** `awake` is a worker outside its wait; `enqueued` and `settled` are histories. */
  datatype Queue = Queue(serial: bool, fifo: seq<nat>, wake: bool, awake: bool, job: Option<nat>,
                         enqueued: seq<nat>, settled: seq<nat>)

  /** The pool lock; a canceller's critical section is open to unlocked readers between its writes. */
  datatype Lock = Free | Cancelling(slot: nat, done: nat)

  /** Callbacks begun and returned, per incarnation. */
  datatype Hist = Hist(evStarted: nat, evEnded: nat, cxStarted: nat, cxEnded: nat)

  datatype State = State(
    slots: seq<Slot>, threads: seq<Thread>, queues: seq<Queue>, lock: Lock,
    retireSeq: nat, inflight: nat, hist: map<(nat, nat), Hist>)

  datatype Step =
    | NewSlot(q: nat) | ReuseSlot(i: nat, q: nat)
    | SetHandlers(i: nat, event: bool, cancel: bool) | SetTimer(i: nat, on: bool)
    | ResumeLock(i: nat) | Spawn(i: nat) | Publish(i: nat)
    | CancelLock(i: nat) | CancelWrite | CancelUnlock
    | TestRunning(t: nat) | FireNow(t: nat) | StartWait(t: nat) | TimeOut(t: nat) | TakeRearm(t: nat)
    | AfterWait(t: nat) | Fire(t: nat)
    | EnterDelivery(t: nat) | Enqueue(t: nat) | SetWake(t: nat) | Awaited(t: nat) | LeaveDelivery(t: nat, again: bool)
    | Close(t: nat)
    | WorkerWakes(q: nat) | WorkerTakes(q: nat) | WorkerSleeps(q: nat) | WorkerSignals(q: nat)
    | CheckJob(t: nat) | BeginCallback(t: nat) | EndCallback(t: nat) | InlineDone(t: nat)

  function HistOf(s: State, x: (nat, nat)): Hist {
    if x in s.hist then s.hist[x] else Hist(0, 0, 0, 0)
  }

  function IdOf(th: Thread): (nat, nat) { (th.slot, th.inc) }

  /** The test `source_create` makes of a retired slot. */
  predicate Reusable(s: State, i: nat)
    requires i < |s.slots|
  {
    var c := s.slots[i];
    && c.retired && !c.starting
    && (c.thread.Some? ==> c.thread.value < |s.threads| && s.threads[c.thread.value].pc == Exited)
  }

  predicate Claimable(s: State, i: nat)
    requires i < |s.slots|
  {
    Reusable(s, i) &&
    forall j :: 0 <= j < |s.slots| && Reusable(s, j) ==> s.slots[i].retiredAt <= s.slots[j].retiredAt
  }

  function Fresh(inc: nat, q: nat): Slot {
    Slot(inc, q, false, false, false, false, false, false, None, None, false, 0, false)
  }

  predicate At(s: State, t: nat, pc: Pc) {
    t < |s.threads| && s.threads[t].slot < |s.slots| && s.threads[t].queue < |s.queues| && s.threads[t].pc == pc
  }

  predicate StageIs(s: State, t: nat, stage: Stage) {
    t < |s.threads| && s.threads[t].slot < |s.slots| && s.threads[t].queue < |s.queues| && s.threads[t].stage == stage
  }

  predicate Enabled(s: State, step: Step) {
    match step
    case NewSlot(q) => s.lock.Free? && q < |s.queues| && |s.slots| < POOL_CAP && forall j :: 0 <= j < |s.slots| ==> !Reusable(s, j)
    case ReuseSlot(i, q) => s.lock.Free? && q < |s.queues| && i < |s.slots| && Claimable(s, i)
    case SetHandlers(i, _, _) => i < |s.slots|
    case SetTimer(i, _) => i < |s.slots|
    // resuming a source that was cancelled, and suspending, are outside this protocol
    case ResumeLock(i) => s.lock.Free? && i < |s.slots| && !s.slots[i].running && !s.slots[i].starting && !s.slots[i].retired
    case Spawn(i) => i < |s.slots| && s.slots[i].starting && s.slots[i].pending.None?
    case Publish(i) => s.lock.Free? && i < |s.slots| && s.slots[i].pending.Some?
    case CancelLock(i) => s.lock.Free? && i < |s.slots|
    case CancelWrite => s.lock.Cancelling? && s.lock.slot < |s.slots| && s.lock.done < 3
    case CancelUnlock => s.lock.Cancelling? && s.lock.done == 3
    case TestRunning(t) => At(s, t, Top)
    case FireNow(t) => At(s, t, Body) && s.slots[s.threads[t].slot].armed
    case StartWait(t) => At(s, t, Body)
    case TimeOut(t) => At(s, t, Waiting(true))
    case TakeRearm(t) => (At(s, t, Waiting(true)) || At(s, t, Waiting(false))) && s.slots[s.threads[t].slot].rearm
    case AfterWait(t) => At(s, t, Woke(true)) || At(s, t, Woke(false))
    case Fire(t) => At(s, t, Firing)
    case EnterDelivery(t) => At(s, t, Enter)
    case Enqueue(t) => At(s, t, Queueing)
    case SetWake(t) => At(s, t, Waking)
    case Awaited(t) => At(s, t, Awaiting) && s.threads[t].stage == Signalled
    case LeaveDelivery(t, _) => At(s, t, Leave)
    case Close(t) => s.lock.Free? && At(s, t, Closing)
    case WorkerWakes(q) => q < |s.queues| && s.queues[q].serial && !s.queues[q].awake && s.queues[q].wake
    case WorkerTakes(q) =>
      q < |s.queues| && s.queues[q].awake && s.queues[q].job.None? && s.queues[q].fifo != [] && s.queues[q].fifo[0] < |s.threads|
    case WorkerSleeps(q) => q < |s.queues| && s.queues[q].awake && s.queues[q].job.None? && s.queues[q].fifo == []
    case WorkerSignals(q) => q < |s.queues| && s.queues[q].job.Some? && StageIs(s, s.queues[q].job.value, Ran)
    case CheckJob(t) => StageIs(s, t, Took)
    case BeginCallback(t) => StageIs(s, t, Decided)
    case EndCallback(t) => StageIs(s, t, Calling)
    case InlineDone(t) => At(s, t, Inline) && s.threads[t].stage == Ran
  }

  function WithSlot(s: State, i: nat, c: Slot): State
    requires i < |s.slots|
  {
    s.(slots := s.slots[i := c])
  }

  function WithThread(s: State, t: nat, th: Thread): State
    requires t < |s.threads|
  {
    s.(threads := s.threads[t := th])
  }

  function WithQueue(s: State, q: nat, k: Queue): State
    requires q < |s.queues|
  {
    s.(queues := s.queues[q := k])
  }

  function Begun(h: Hist, cleanup: bool): Hist {
    if cleanup then h.(cxStarted := h.cxStarted + 1) else h.(evStarted := h.evStarted + 1)
  }

  function Ended(h: Hist, cleanup: bool): Hist {
    if cleanup then h.(cxEnded := h.cxEnded + 1) else h.(evEnded := h.evEnded + 1)
  }

  /** Creators, resumers, cancellers and callers that set handlers and timers. */
  function ApplyToSlot(s: State, step: Step): State
    requires Enabled(s, step)
  {
    match step
    case NewSlot(q) => s.(slots := s.slots + [Fresh(0, q)])
    case ReuseSlot(i, q) => WithSlot(s, i, Fresh(s.slots[i].inc + 1, q))
    case SetHandlers(i, e, c) => WithSlot(s, i, s.slots[i].(hasEvent := e, hasCancel := c))
    case SetTimer(i, on) => WithSlot(s, i, s.slots[i].(armed := on, rearm := s.slots[i].rearm || on))
    case ResumeLock(i) => WithSlot(s, i, s.slots[i].(running := true, starting := true))
    case Spawn(i) =>
      WithSlot(s, i, s.slots[i].(pending := Some(|s.threads|)))
      .(threads := s.threads + [Thread(i, s.slots[i].inc, s.slots[i].queue, Top, false, Idle, false)])
    case Publish(i) => WithSlot(s, i, s.slots[i].(thread := s.slots[i].pending, pending := None, starting := false))
    case CancelLock(i) => s.(lock := Cancelling(i, 0))
    case CancelWrite => CancelStage(s)
    case CancelUnlock => s.(lock := Free)
    case _ => s
  }

  /** The source thread's own loop. */
  function ApplyToThread(s: State, step: Step): State
    requires Enabled(s, step)
  {
    match step
    case TestRunning(t) =>
      WithThread(s, t, s.threads[t].(pc := if s.slots[s.threads[t].slot].running then Body else Closing))
    case FireNow(t) => Fired(s, t)
    case StartWait(t) => WithThread(s, t, s.threads[t].(pc := Waiting(s.slots[s.threads[t].slot].armed)))
    case TimeOut(t) => WithThread(s, t, s.threads[t].(pc := Woke(true)))
    case TakeRearm(t) =>
      var i := s.threads[t].slot;
      WithThread(WithSlot(s, i, s.slots[i].(rearm := false)), t, s.threads[t].(pc := Woke(false)))
    case AfterWait(t) =>
      WithThread(s, t, s.threads[t].(pc :=
        if !s.slots[s.threads[t].slot].running then Closing else if s.threads[t].pc.timeout then Firing else Top))
    case Fire(t) => Fired(s, t)
    case Close(t) => Closed(s, t)
    case _ => s
  }

  /** A delivery: the source thread's side. */
  function ApplyToDelivery(s: State, step: Step): State
    requires Enabled(s, step)
  {
    match step
    case EnterDelivery(t) => Entered(s, t)
    case Enqueue(t) => Enqueued(s, t)
    case SetWake(t) =>
      var q := s.threads[t].queue;
      WithThread(WithQueue(s, q, s.queues[q].(wake := true)), t, s.threads[t].(pc := Awaiting))
    case Awaited(t) => WithThread(s, t, s.threads[t].(pc := Leave, stage := Idle))
    case InlineDone(t) => WithThread(s, t, s.threads[t].(pc := Leave, stage := Idle))
    case LeaveDelivery(t, again) => Left(s, t, again)
    case _ => s
  }

  /** A queue worker, and running the job it (or the source thread itself) holds. */
  function ApplyToWorker(s: State, step: Step): State
    requires Enabled(s, step)
  {
    match step
    case WorkerWakes(q) => WithQueue(s, q, s.queues[q].(wake := false, awake := true))
    case WorkerTakes(q) => Taken(s, q)
    case WorkerSleeps(q) => WithQueue(s, q, s.queues[q].(awake := false))
    case WorkerSignals(q) => Signals(s, q)
    case CheckJob(t) => Checked(s, t)
    case BeginCallback(t) => Begins(s, t)
    case EndCallback(t) => Ends(s, t)
    case _ => s
  }

  predicate OfSlot(step: Step) {
    || step.NewSlot? || step.ReuseSlot? || step.SetHandlers? || step.SetTimer? || step.ResumeLock?
    || step.Spawn? || step.Publish? || step.CancelLock? || step.CancelWrite? || step.CancelUnlock?
  }

  predicate OfThread(step: Step) {
    || step.TestRunning? || step.FireNow? || step.StartWait? || step.TimeOut? || step.TakeRearm?
    || step.AfterWait? || step.Fire? || step.Close?
  }

  predicate OfDelivery(step: Step) {
    || step.EnterDelivery? || step.Enqueue? || step.SetWake? || step.Awaited? || step.InlineDone? || step.LeaveDelivery?
  }

  function Apply(s: State, step: Step): State
    requires Enabled(s, step)
  {
    if OfSlot(step) then ApplyToSlot(s, step)
    else if OfThread(step) then ApplyToThread(s, step)
    else if OfDelivery(step) then ApplyToDelivery(s, step)
    else ApplyToWorker(s, step)
  }

  /** The writes inside `source_cancel`'s critical section, in order. */
  function CancelStage(s: State): State
    requires s.lock.Cancelling? && s.lock.slot < |s.slots| && s.lock.done < 3
  {
    var i := s.lock.slot;
    var c := s.slots[i];
    var next := s.(lock := Cancelling(i, s.lock.done + 1));
    if s.lock.done == 0 then WithSlot(next, i, c.(running := false))
    else if s.lock.done == 1 then WithSlot(next, i, c.(armed := false, rearm := true))
    else WithSlot(next, i, c.(retiredAt := s.retireSeq + 1, retired := true)).(retireSeq := s.retireSeq + 1)
  }

  /** `source_deliver` counts itself in and picks the inline or the queued path. */
  function Entered(s: State, t: nat): State
    requires At(s, t, Enter)
  {
    var serial := s.queues[s.threads[t].queue].serial;
    WithThread(s, t, s.threads[t].(pc := if serial then Queueing else Inline, stage := if serial then Idle else Took))
    .(inflight := s.inflight + 1)
  }

  function Enqueued(s: State, t: nat): State
    requires At(s, t, Queueing)
  {
    var q := s.threads[t].queue;
    var k := s.queues[q];
    WithThread(WithQueue(s, q, k.(fifo := k.fifo + [t], enqueued := k.enqueued + [t])), t,
               s.threads[t].(pc := Waking, stage := InQueue))
  }

  /** Back from a delivery: a repeating timer re-arms, a cleaned-up source's thread is done. */
  function Left(s: State, t: nat, again: bool): State
    requires At(s, t, Leave)
  {
    var th := s.threads[t];
    var c := s.slots[th.slot];
    WithThread(WithSlot(s, th.slot, c.(armed := c.armed || (again && !th.cleanup))), t,
               th.(pc := if th.cleanup then Exited else Top))
    .(inflight := if s.inflight > 0 then s.inflight - 1 else 0)
  }

  function Taken(s: State, q: nat): State
    requires q < |s.queues| && s.queues[q].fifo != [] && s.queues[q].fifo[0] < |s.threads|
  {
    var k := s.queues[q];
    var t := k.fifo[0];
    WithThread(WithQueue(s, q, k.(fifo := k.fifo[1..], job := Some(t))), t, s.threads[t].(stage := Took))
  }

  function Signals(s: State, q: nat): State
    requires q < |s.queues| && s.queues[q].job.Some? && s.queues[q].job.value < |s.threads|
  {
    var k := s.queues[q];
    var t := k.job.value;
    WithThread(WithQueue(s, q, k.(job := None, settled := k.settled + [t])), t, s.threads[t].(stage := Signalled))
  }

  /** A cancelled event is skipped; a cleanup always runs. */
  function Checked(s: State, t: nat): State
    requires StageIs(s, t, Took)
  {
    var th := s.threads[t];
    WithThread(s, t, th.(stage := if th.cleanup || s.slots[th.slot].running then Decided else Ran))
  }

  function Begins(s: State, t: nat): State
    requires t < |s.threads|
  {
    var th := s.threads[t];
    WithThread(s, t, th.(stage := Calling)).(hist := s.hist[IdOf(th) := Begun(HistOf(s, IdOf(th)), th.cleanup)])
  }

  function Ends(s: State, t: nat): State
    requires t < |s.threads|
  {
    var th := s.threads[t];
    WithThread(s, t, th.(stage := Ran)).(hist := s.hist[IdOf(th) := Ended(HistOf(s, IdOf(th)), th.cleanup)])
  }

  /** The timer is due: disarm it and deliver the event, if there is a handler. */
  function Fired(s: State, t: nat): State
    requires t < |s.threads| && s.threads[t].slot < |s.slots|
  {
    var th := s.threads[t];
    var c := s.slots[th.slot];
    WithThread(WithSlot(s, th.slot, c.(armed := false)), t, th.(pc := if c.hasEvent then Enter else Top))
  }

  /** The thread's last critical section: deliver cancellation once, if it was published. */
  function Closed(s: State, t: nat): State
    requires t < |s.threads| && s.threads[t].slot < |s.slots|
  {
    var th := s.threads[t];
    var c := s.slots[th.slot];
    if c.retired && !c.delivered then
      WithThread(WithSlot(s, th.slot, c.(delivered := true)), t,
                 th.(pc := if c.hasCancel then Enter else Exited, cleanup := c.hasCancel, saw := true))
    else WithThread(s, t, th.(pc := Exited, saw := c.retired))
  }

  function Init(serial: seq<bool>): State {
    State([], [], seq(|serial|, i requires 0 <= i < |serial| => Queue(serial[i], [], false, false, None, [], [])), Free, 0, 0, map[])
  }

  /** The state after a list of steps; a step that is not enabled is passed over. */
  function Exec(s: State, steps: seq<Step>): State
    decreases |steps|
  {
    if steps == [] then s
    else
      var before := Exec(s, steps[..|steps| - 1]);
      var step := steps[|steps| - 1];
      if Enabled(before, step) then Apply(before, step) else before
  }
}
