/** Every timer that comes due is served: deliveries, callbacks and skips are counted against each other. */
module SourceCounts {
  import opened Wrappers
  import opened Sources
  import opened SourceInvariants
  import opened SourceSteps
  import opened SourceTheorems

  // ---- cancellation, as the canceller's first write

  /** In the run a canceller has begun to write to incarnation `x`. */
  predicate CancelWritten(s: State, steps: seq<Step>, x: (nat, nat))
    decreases |steps|
  {
    steps != [] &&
    var front, step := steps[..|steps| - 1], steps[|steps| - 1];
    var before := Exec(s, front);
    CancelWritten(s, front, x) || (Enabled(before, step) && Cancels(before, step, x))
  }

  predicate Cancels(s: State, step: Step, x: (nat, nat)) {
    step.CancelWrite? && s.lock == Cancelling(x.0, 0) && x.0 < |s.slots| && s.slots[x.0].inc == x.1
  }

  /** What a step does to whether slot `i` is stopped, and to its incarnation. */
  ghost predicate StopsOnly(s: State, s': State, step: Step, i: nat)
    requires i < |s.slots|
  {
    && i < |s'.slots|
    && (if step.ReuseSlot? && step.i == i then s'.slots[i].inc == s.slots[i].inc + 1 && !Stopped(s', i)
        else s'.slots[i].inc == s.slots[i].inc
             && (Stopped(s', i) <==> Stopped(s, i) || Cancels(s, step, (i, s.slots[i].inc))))
  }

  lemma SlotStops(s: State, step: Step, i: nat)
    requires LockOk(s) && Enabled(s, step) && OfSlot(step) && i < |s.slots|
    ensures StopsOnly(s, Apply(s, step), step, i)
  {
    hide ApplyToThread, ApplyToDelivery, ApplyToWorker, Reusable, Claimable;
  }

  lemma ThreadStops(s: State, step: Step, i: nat)
    requires Enabled(s, step) && OfThread(step) && i < |s.slots|
    ensures StopsOnly(s, Apply(s, step), step, i)
  {
    hide ApplyToSlot, ApplyToDelivery, ApplyToWorker;
  }

  lemma DeliveryStops(s: State, step: Step, i: nat)
    requires Enabled(s, step) && OfDelivery(step) && i < |s.slots|
    ensures StopsOnly(s, Apply(s, step), step, i)
  {
    hide ApplyToSlot, ApplyToThread, ApplyToWorker;
  }

  lemma WorkerStops(s: State, step: Step, i: nat)
    requires Enabled(s, step) && !OfSlot(step) && !OfThread(step) && !OfDelivery(step) && i < |s.slots|
    ensures StopsOnly(s, Apply(s, step), step, i)
  {
    hide ApplyToSlot, ApplyToThread, ApplyToDelivery, HistOf, Begun, Ended;
  }

  lemma StepStops(s: State, step: Step, i: nat)
    requires LockOk(s) && Enabled(s, step) && i < |s.slots|
    ensures StopsOnly(s, Apply(s, step), step, i)
  {
    hide Enabled, Apply, StopsOnly, LockOk;
    if OfSlot(step) { SlotStops(s, step, i); }
    else if OfThread(step) { ThreadStops(s, step, i); }
    else if OfDelivery(step) { DeliveryStops(s, step, i); }
    else { WorkerStops(s, step, i); }
  }

  lemma NewIsFresh(s: State, step: Step)
    requires Enabled(s, step)
    ensures var s' := Apply(s, step);
      |s'.slots| == |s.slots| || (step.NewSlot? && |s'.slots| == |s.slots| + 1 && !Stopped(s', |s.slots|) && s'.slots[|s.slots|].inc == 0)
  {
    hide Reusable, Claimable, HistOf, Begun, Ended;
  }


  lemma {:induction false} WrittenIsStopped(serial: seq<bool>, steps: seq<Step>, i: nat)
    ensures var s := Reached(serial, steps);
      && (i >= |s.slots| ==> forall n: nat :: !CancelWritten(Init(serial), steps, (i, n)))
      && (i < |s.slots| ==>
            && (CancelWritten(Init(serial), steps, (i, s.slots[i].inc)) <==> Stopped(s, i))
            && forall n: nat :: n > s.slots[i].inc ==> !CancelWritten(Init(serial), steps, (i, n)))
  {
    hide Enabled, Apply, Stopped, Inv;
    if steps != [] {
      var front, step := steps[..|steps| - 1], steps[|steps| - 1];
      var before := Reached(serial, front);
      WrittenIsStopped(serial, front, i);
      ExecKeeps(serial, front);
      if Enabled(before, step) {
        NewIsFresh(before, step);
        if i < |before.slots| {
          InvLock(before);
          StepStops(before, step, i);
        }
      }
    }
  }

  lemma InvLock(s: State)
    requires Inv(s)
    ensures LockOk(s)
  {
  }

  /** While its thread has not exited a source runs unless it was stopped. */
  lemma RunningUnlessStopped(s: State, t: nat)
    requires Inv(s) && t < |s.threads| && !s.threads[t].pc.Exited?
    ensures var i := s.threads[t].slot;
      i < |s.slots| && s.slots[i].inc == s.threads[t].inc && (s.slots[i].running <==> !Stopped(s, i))
  {
    hide HistOk, HistsOk, QueueOk, QueuesOk, Listed, ListedOk, PcStage, Busy, Distinct;
    assert ThreadOk(s, t);
    assert SlotOk(s, s.threads[t].slot);
  }

  /** A queued event is skipped exactly when a canceller has begun to write to its source, and a
      cleanup never is. */
  lemma SkippedIffCancelled(serial: seq<bool>, steps: seq<Step>, t: nat)
    ensures var s := Reached(serial, steps); Enabled(s, CheckJob(t)) ==>
      var stage := Apply(s, CheckJob(t)).threads[t].stage;
      && (stage.Decided? || stage.Ran?)
      && (stage.Ran? <==> !s.threads[t].cleanup && CancelWritten(Init(serial), steps, IdOf(s.threads[t])))
  {
    hide Exec, Stopped, CancelWritten;
    ExecKeeps(serial, steps);
    var s := Reached(serial, steps);
    if Enabled(s, CheckJob(t)) {
      TookIsLive(s, t);
      RunningUnlessStopped(s, t);
      WrittenIsStopped(serial, steps, s.threads[t].slot);
      CheckIs(s, t);
    }
  }

  lemma TookIsLive(s: State, t: nat)
    requires Inv(s) && Enabled(s, CheckJob(t))
    ensures !s.threads[t].pc.Exited?
  {
    hide HistOk, HistsOk, QueueOk, QueuesOk, Listed, ListedOk, Busy, Distinct, SlotOk, SlotsOk;
    assert ThreadOk(s, t);
  }

  lemma CheckIs(s: State, t: nat)
    requires Enabled(s, CheckJob(t))
    ensures Apply(s, CheckJob(t)) == Checked(s, t)
  {
  }

  // ---- counting what becomes of every expiry

  /** Of one incarnation in a run: how often its timer was armed and came due (`expired`), how often
      its thread acted on that (`fires`) and found a handler (`due`), how many event deliveries came
      back, how many jobs ended without a call, and whether it closed with a cancel handler. */
  datatype Tally = Tally(armed: nat, expired: nat, fires: nat, due: nat, returned: nat, skipped: nat, closing: bool)

  const NOTHING := Tally(0, 0, 0, 0, 0, 0, false)

  predicate IsOf(s: State, t: nat, x: (nat, nat)) {
    t < |s.threads| && IdOf(s.threads[t]) == x && x.0 < |s.slots|
  }

  function Noted(y: Tally, s: State, step: Step, x: (nat, nat)): Tally
    requires Enabled(s, step)
  {
    match step
    case SetTimer(i, on) => if on && i == x.0 && s.slots[i].inc == x.1 then y.(armed := y.armed + 1) else y
    case AfterWait(t) =>
      if IsOf(s, t, x) && s.threads[t].pc == Woke(true) && s.slots[x.0].running then y.(expired := y.expired + 1) else y
    case FireNow(t) =>
      if IsOf(s, t, x) then y.(expired := y.expired + 1, fires := y.fires + 1, due := y.due + if s.slots[x.0].hasEvent then 1 else 0) else y
    case Fire(t) =>
      if IsOf(s, t, x) then y.(fires := y.fires + 1, due := y.due + if s.slots[x.0].hasEvent then 1 else 0) else y
    case CheckJob(t) =>
      if IsOf(s, t, x) && Apply(s, step).threads[t].stage.Ran? then y.(skipped := y.skipped + 1) else y
    case LeaveDelivery(t, again) =>
      if IsOf(s, t, x) && !s.threads[t].cleanup then
        y.(returned := y.returned + 1, armed := y.armed + if again then 1 else 0) else y
    case Close(t) => if IsOf(s, t, x) then y.(closing := s.slots[x.0].hasCancel) else y
    case _ => y
  }

  function TallyOf(s: State, steps: seq<Step>, x: (nat, nat)): Tally
    decreases |steps|
  {
    if steps == [] then NOTHING
    else
      var front, step := steps[..|steps| - 1], steps[|steps| - 1];
      var before := Exec(s, front);
      if Enabled(before, step) then Noted(TallyOf(s, front, x), before, step, x) else TallyOf(s, front, x)
  }

  /** The thread is delivering an event, or about to. */
  predicate Serving(th: Thread) { !th.cleanup && (th.pc.Enter? || Delivering(th.pc)) }

  /** Its event job is done but the delivery has not come back. */
  predicate Done(th: Thread) { !th.cleanup && (th.stage.Ran? || th.stage.Signalled? || th.pc.Leave?) }

  /** An arming that has not yet led to an expiry. */
  predicate Pending(th: Thread, c: Slot) {
    !th.pc.Firing? && (c.armed || th.pc == Waiting(true) || th.pc == Woke(true))
  }

  /** The counts of a thread's incarnation and where the thread stands. */
  ghost predicate Balanced(y: Tally, h: Hist, th: Thread, c: Slot) {
    && y.expired == y.fires + (if th.pc.Firing? then 1 else 0)
    && y.due == y.returned + (if Serving(th) then 1 else 0)
    && y.returned + (if Done(th) then 1 else 0) == h.evEnded + y.skipped
    && (th.cleanup <==> y.closing)
    && (!th.pc.Exited? ==> y.expired + (if Pending(th, c) then 1 else 0) <= y.armed)
    && y.expired <= y.armed
  }

  /** An incarnation that has no thread yet. */
  ghost predicate Untouched(y: Tally, h: Hist, c: Slot) {
    y == NOTHING.(armed := y.armed) && h == Hist(0, 0, 0, 0) && (c.armed ==> y.armed > 0)
  }

  ghost predicate BalancedAt(y: Tally, s: State, t: nat) {
    t < |s.threads| && s.threads[t].slot < |s.slots|
    && Balanced(y, HistOf(s, IdOf(s.threads[t])), s.threads[t], s.slots[s.threads[t].slot])
  }

  /** Another thread's step leaves the slot of a live thread alone. */
  lemma OthersSlot(s: State, t: nat, u: nat)
    requires Inv(s) && t < |s.threads| && u < |s.threads| && u != t && !s.threads[t].pc.Exited? && !s.threads[u].pc.Exited?
    ensures s.threads[u].slot != s.threads[t].slot && IdOf(s.threads[u]) != IdOf(s.threads[t])
  {
    hide HistOk, HistsOk, QueueOk, QueuesOk, Listed, ListedOk, PcStage, Busy, SlotOk, SlotsOk;
    assert ThreadOk(s, t) && ThreadOk(s, u);
    assert IdOf(s.threads[u]) != IdOf(s.threads[t]);
  }

  lemma DistinctIds(s: State, t: nat, u: nat)
    requires Inv(s) && t < |s.threads| && u < |s.threads| && u != t
    ensures IdOf(s.threads[u]) != IdOf(s.threads[t])
  {
    hide HistOk, HistsOk, QueueOk, QueuesOk, Listed, ListedOk, PcStage, Busy, SlotOk, SlotsOk, ThreadOk, ThreadsOk;
  }

  lemma UserBalance(s: State, step: Step, t: nat, y: Tally)
    requires Enabled(s, step) && (step.SetHandlers? || step.SetTimer?) && BalancedAt(y, s, t)
    requires !s.threads[t].pc.Exited? ==> s.slots[s.threads[t].slot].inc == s.threads[t].inc
    ensures BalancedAt(Noted(y, s, step, IdOf(s.threads[t])), Apply(s, step), t)
  {
    hide ApplyToThread, ApplyToDelivery, ApplyToWorker, CancelStage;
  }

  lemma ClaimBalance(s: State, step: Step, t: nat, y: Tally)
    requires Enabled(s, step) && (step.NewSlot? || step.ReuseSlot?) && BalancedAt(y, s, t)
    requires step.ReuseSlot? && step.i == s.threads[t].slot ==> s.threads[t].pc.Exited?
    requires !s.threads[t].pc.Exited? ==> s.slots[s.threads[t].slot].inc == s.threads[t].inc
    ensures BalancedAt(Noted(y, s, step, IdOf(s.threads[t])), Apply(s, step), t)
  {
    hide ApplyToThread, ApplyToDelivery, ApplyToWorker, Reusable, Claimable, CancelStage;
  }

  lemma PoolBalance(s: State, step: Step, t: nat, y: Tally)
    requires Enabled(s, step) && OfSlot(step) && !step.SetHandlers? && !step.SetTimer? && BalancedAt(y, s, t)
    requires !step.NewSlot? && !step.ReuseSlot?
    requires !s.threads[t].pc.Exited? ==> s.slots[s.threads[t].slot].inc == s.threads[t].inc
    ensures BalancedAt(Noted(y, s, step, IdOf(s.threads[t])), Apply(s, step), t)
  {
    hide ApplyToThread, ApplyToDelivery, ApplyToWorker, Reusable, Claimable;
  }

  lemma SlotBalance(s: State, step: Step, t: nat, y: Tally)
    requires Enabled(s, step) && OfSlot(step) && BalancedAt(y, s, t)
    requires step.ReuseSlot? && step.i == s.threads[t].slot ==> s.threads[t].pc.Exited?
    requires !s.threads[t].pc.Exited? ==> s.slots[s.threads[t].slot].inc == s.threads[t].inc
    ensures BalancedAt(Noted(y, s, step, IdOf(s.threads[t])), Apply(s, step), t)
  {
    hide Apply, Enabled, Noted;
    if step.SetHandlers? || step.SetTimer? { UserBalance(s, step, t, y); }
    else if step.NewSlot? || step.ReuseSlot? { ClaimBalance(s, step, t, y); }
    else { PoolBalance(s, step, t, y); }
  }

  lemma OwnTurnBalance(s: State, step: Step, t: nat, y: Tally)
    requires Enabled(s, step) && (step.TestRunning? || step.StartWait? || step.TimeOut? || step.TakeRearm? || step.AfterWait?) && step.t == t && BalancedAt(y, s, t)
    requires s.threads[t].queue < |s.queues| && PcStage(s.threads[t], s.queues[s.threads[t].queue].serial)
    ensures BalancedAt(Noted(y, s, step, IdOf(s.threads[t])), Apply(s, step), t)
  {
    hide ApplyToSlot, ApplyToDelivery, ApplyToWorker, Fired, Closed;
  }

  lemma OwnFireBalance(s: State, step: Step, t: nat, y: Tally)
    requires Enabled(s, step) && (step.FireNow? || step.Fire? || step.Close?) && step.t == t && BalancedAt(y, s, t)
    requires s.threads[t].queue < |s.queues| && PcStage(s.threads[t], s.queues[s.threads[t].queue].serial)
    requires step.Close? ==> s.slots[s.threads[t].slot].retired && !s.slots[s.threads[t].slot].delivered
    ensures BalancedAt(Noted(y, s, step, IdOf(s.threads[t])), Apply(s, step), t)
  {
    hide ApplyToSlot, ApplyToDelivery, ApplyToWorker;
  }

  lemma OtherLoopBalance(s: State, step: Step, t: nat, y: Tally)
    requires Enabled(s, step) && OfThread(step) && step.t != t && BalancedAt(y, s, t)
    requires IdOf(s.threads[step.t]) != IdOf(s.threads[t])
    requires !s.threads[t].pc.Exited? ==> s.threads[step.t].slot != s.threads[t].slot
    ensures BalancedAt(Noted(y, s, step, IdOf(s.threads[t])), Apply(s, step), t)
  {
    hide ApplyToSlot, ApplyToDelivery, ApplyToWorker;
  }

  lemma OwnArrivalBalance(s: State, step: Step, t: nat, y: Tally)
    requires Enabled(s, step) && (step.EnterDelivery? || step.Enqueue?) && step.t == t && BalancedAt(y, s, t)
    requires s.threads[t].queue < |s.queues| && PcStage(s.threads[t], s.queues[s.threads[t].queue].serial)
    ensures BalancedAt(Noted(y, s, step, IdOf(s.threads[t])), Apply(s, step), t)
  {
    hide ApplyToSlot, ApplyToThread, ApplyToWorker, Left;
  }

  lemma OwnReturnBalance(s: State, step: Step, t: nat, y: Tally)
    requires Enabled(s, step) && (step.SetWake? || step.Awaited? || step.InlineDone?) && step.t == t && BalancedAt(y, s, t)
    requires s.threads[t].queue < |s.queues| && PcStage(s.threads[t], s.queues[s.threads[t].queue].serial)
    ensures BalancedAt(Noted(y, s, step, IdOf(s.threads[t])), Apply(s, step), t)
  {
    hide ApplyToSlot, ApplyToThread, ApplyToWorker, Entered, Enqueued, Left;
  }

  lemma OwnLeaveBalance(s: State, step: Step, t: nat, y: Tally)
    requires Enabled(s, step) && step.LeaveDelivery? && step.t == t && BalancedAt(y, s, t)
    requires s.threads[t].queue < |s.queues| && PcStage(s.threads[t], s.queues[s.threads[t].queue].serial)
    ensures BalancedAt(Noted(y, s, step, IdOf(s.threads[t])), Apply(s, step), t)
  {
    hide ApplyToSlot, ApplyToThread, ApplyToWorker, Entered, Enqueued;
  }

  lemma OwnDeliveryBalance(s: State, step: Step, t: nat, y: Tally)
    requires Enabled(s, step) && OfDelivery(step) && step.t == t && BalancedAt(y, s, t)
    requires s.threads[t].queue < |s.queues| && PcStage(s.threads[t], s.queues[s.threads[t].queue].serial)
    ensures BalancedAt(Noted(y, s, step, IdOf(s.threads[t])), Apply(s, step), t)
  {
    hide Apply, Enabled, BalancedAt, Noted, PcStage;
    if step.EnterDelivery? || step.Enqueue? { OwnArrivalBalance(s, step, t, y); }
    else if step.LeaveDelivery? { OwnLeaveBalance(s, step, t, y); }
    else { OwnReturnBalance(s, step, t, y); }
  }

  lemma OtherDeliveryBalance(s: State, step: Step, t: nat, y: Tally)
    requires Enabled(s, step) && OfDelivery(step) && step.t != t && BalancedAt(y, s, t)
    requires IdOf(s.threads[step.t]) != IdOf(s.threads[t])
    requires !s.threads[t].pc.Exited? ==> s.threads[step.t].slot != s.threads[t].slot
    ensures BalancedAt(Noted(y, s, step, IdOf(s.threads[t])), Apply(s, step), t)
  {
    hide ApplyToSlot, ApplyToThread, ApplyToWorker;
  }

  lemma JobBalance(s: State, step: Step, t: nat, y: Tally)
    requires Enabled(s, step) && (step.CheckJob? || step.BeginCallback? || step.EndCallback?) && BalancedAt(y, s, t)
    requires step.t != t ==> IdOf(s.threads[step.t]) != IdOf(s.threads[t])
    requires s.threads[t].queue < |s.queues| && PcStage(s.threads[t], s.queues[s.threads[t].queue].serial)
    requires step.CheckJob? && step.t == t ==> (Apply(s, step).threads[t].stage.Ran? ==> !s.threads[t].cleanup)
    ensures BalancedAt(Noted(y, s, step, IdOf(s.threads[t])), Apply(s, step), t)
  {
    hide ApplyToSlot, ApplyToThread, ApplyToDelivery;
  }

  lemma WorkerBalance(s: State, step: Step, t: nat, y: Tally)
    requires Enabled(s, step) && (step.WorkerWakes? || step.WorkerTakes? || step.WorkerSleeps? || step.WorkerSignals?) && BalancedAt(y, s, t)
    requires step.WorkerTakes? ==> s.threads[s.queues[step.q].fifo[0]].stage.InQueue?
    ensures BalancedAt(Noted(y, s, step, IdOf(s.threads[t])), Apply(s, step), t)
  {
    hide ApplyToSlot, ApplyToThread, ApplyToDelivery;
  }

  /** Threads are only added, and keep whose they are; incarnations only go up. */
  ghost predicate Grows(s: State, s': State, step: Step) {
    && |s.threads| <= |s'.threads| && |s.slots| <= |s'.slots|
    && (forall t :: 0 <= t < |s.threads| ==> IdOf(s'.threads[t]) == IdOf(s.threads[t]))
    && (|s'.threads| > |s.threads| ==>
          && step.Spawn? && |s'.threads| == |s.threads| + 1 && step.i < |s.slots|
          && s'.slots == s.slots[step.i := s'.slots[step.i]] && s'.slots[step.i].armed == s.slots[step.i].armed
          && s'.threads[|s.threads|] == Thread(step.i, s.slots[step.i].inc, s.slots[step.i].queue, Top, false, Idle, false))
  }

  lemma SlotGrows(s: State, step: Step)
    requires Enabled(s, step) && OfSlot(step)
    ensures Grows(s, Apply(s, step), step)
  {
    hide ApplyToThread, ApplyToDelivery, ApplyToWorker, Reusable, Claimable;
  }

  lemma OtherGrows(s: State, step: Step)
    requires Enabled(s, step) && !OfSlot(step)
    ensures Grows(s, Apply(s, step), step)
  {
    hide ApplyToSlot, HistOf, Begun, Ended;
    if OfThread(step) {
      LoopGrows(s, step);
    } else {
      hide ApplyToThread;
    }
  }

  lemma LoopGrows(s: State, step: Step)
    requires Enabled(s, step) && OfThread(step)
    ensures Grows(s, Apply(s, step), step)
  {
    hide ApplyToSlot, ApplyToDelivery, ApplyToWorker;
  }

  lemma StepGrows(s: State, step: Step)
    requires Enabled(s, step)
    ensures Grows(s, Apply(s, step), step)
  {
    hide Enabled, Apply, Grows;
    if OfSlot(step) { SlotGrows(s, step); } else { OtherGrows(s, step); }
  }

  /** A slot gets armed only by its timer being set, or by its own thread coming back from a delivery. */
  lemma SlotArms(s: State, step: Step, i: nat)
    requires Enabled(s, step) && OfSlot(step) && i < |s.slots| && i < |Apply(s, step).slots|
    requires Apply(s, step).slots[i].armed && !s.slots[i].armed
    ensures step == SetTimer(i, true)
  {
    hide Reusable, Claimable, ApplyToThread, ApplyToDelivery, ApplyToWorker;
  }

  lemma DeliveryArms(s: State, step: Step, i: nat)
    requires Enabled(s, step) && !OfSlot(step) && i < |s.slots| && i < |Apply(s, step).slots|
    requires Apply(s, step).slots[i].armed && !s.slots[i].armed
    ensures step.LeaveDelivery? && s.threads[step.t].slot == i
  {
    hide HistOf, Begun, Ended, ApplyToSlot;
  }

  lemma ArmedOnlyBy(s: State, step: Step, i: nat)
    requires Enabled(s, step) && i < |s.slots| && i < |Apply(s, step).slots| && Apply(s, step).slots[i].armed && !s.slots[i].armed
    ensures step == SetTimer(i, true) || (step.LeaveDelivery? && s.threads[step.t].slot == i)
  {
    hide Apply, Enabled;
    if OfSlot(step) { SlotArms(s, step, i); } else { DeliveryArms(s, step, i); }
  }

  ghost predicate NotYet(s: State, x: (nat, nat)) {
    x.0 >= |s.slots| || x.1 > s.slots[x.0].inc
  }

  ghost predicate Unowned(s: State, x: (nat, nat)) {
    forall t :: 0 <= t < |s.threads| ==> IdOf(s.threads[t]) != x
  }

  lemma NotYetUnowned(s: State, x: (nat, nat))
    requires Inv(s) && NotYet(s, x)
    ensures Unowned(s, x)
  {
    hide HistOk, HistsOk, QueueOk, QueuesOk, Listed, ListedOk, PcStage, Busy, SlotOk, SlotsOk, Distinct, Current;
    forall t | 0 <= t < |s.threads| ensures IdOf(s.threads[t]) != x {
      assert ThreadOk(s, t);
    }
  }

  lemma UnownedNotes(s: State, step: Step, x: (nat, nat), y: Tally)
    requires Enabled(s, step) && Unowned(s, x)
    ensures Noted(y, s, step, x) == if step.SetTimer? && step.on && step.i == x.0 && s.slots[x.0].inc == x.1
                                    then y.(armed := y.armed + 1) else y
    ensures NotYet(s, x) ==> Noted(y, s, step, x) == y
  {
    hide Apply;
  }

  lemma UnownedHist(s: State, x: (nat, nat))
    requires Inv(s) && Unowned(s, x)
    ensures HistOf(s, x) == Hist(0, 0, 0, 0)
  {
    hide ThreadOk, ThreadsOk, SlotOk, SlotsOk, QueueOk, QueuesOk, Listed, ListedOk, Busy, Distinct, HistOk;
    assert !Owned(s, x);
  }

  /** Nothing is counted for an incarnation before it exists. */
  lemma {:induction false} NothingYet(serial: seq<bool>, steps: seq<Step>, x: (nat, nat))
    requires NotYet(Reached(serial, steps), x)
    ensures TallyOf(Init(serial), steps, x) == NOTHING
  {
    hide Enabled, Apply, Inv, Noted, Stopped;
    if steps != [] {
      var front, step := steps[..|steps| - 1], steps[|steps| - 1];
      var before := Reached(serial, front);
      ExecKeeps(serial, front);
      if Enabled(before, step) {
        StepGrows(before, step);
        if x.0 < |before.slots| {
          InvLock(before);
          StepStops(before, step, x.0);
        }
        NothingYet(serial, front, x);
        NotYetUnowned(before, x);
        UnownedNotes(before, step, x, NOTHING);
      } else {
        NothingYet(serial, front, x);
      }
    }
  }

  /** Before its thread exists only armings are counted. */
  lemma {:induction false} OnlyArmings(serial: seq<bool>, steps: seq<Step>, i: nat)
    ensures var s := Reached(serial, steps);
      i < |s.slots| && Unowned(s, (i, s.slots[i].inc)) ==>
        Untouched(TallyOf(Init(serial), steps, (i, s.slots[i].inc)), HistOf(s, (i, s.slots[i].inc)), s.slots[i])
  {
    hide Enabled, Apply, Inv, Noted, Stopped;
    ExecKeeps(serial, steps);
    var s := Reached(serial, steps);
    if i < |s.slots| && Unowned(s, (i, s.slots[i].inc)) {
      var x := (i, s.slots[i].inc);
      UnownedHist(s, x);
      var front, step := steps[..|steps| - 1], steps[|steps| - 1];
      var before := Reached(serial, front);
      ExecKeeps(serial, front);
      OnlyArmings(serial, front, i);
      if Enabled(before, step) {
        StepGrows(before, step);
        if i < |before.slots| {
          InvLock(before);
          StepStops(before, step, i);
        }
        UnownedBefore(before, s, step, x);
        UnownedNotes(before, step, x, TallyOf(Init(serial), front, x));
        if NotYet(before, x) {
          NothingYet(serial, front, x);
          FreshIsUnarmed(before, step, i);
        } else if s.slots[i].armed && !before.slots[i].armed {
          ArmedOnlyBy(before, step, i);
          NotByDelivery(before, step, i);
        }
      }
    }
  }

  lemma UnownedBefore(s: State, s': State, step: Step, x: (nat, nat))
    requires Grows(s, s', step) && Unowned(s', x)
    ensures Unowned(s, x)
  {
  }

  lemma FreshBySlot(s: State, step: Step, i: nat)
    requires Enabled(s, step) && OfSlot(step)
    requires i < |Apply(s, step).slots| && NotYet(s, (i, Apply(s, step).slots[i].inc))
    ensures !Apply(s, step).slots[i].armed && (step.NewSlot? || step.ReuseSlot?)
  {
    hide Reusable, Claimable, ApplyToThread, ApplyToDelivery, ApplyToWorker;
  }

  lemma LaterStepsClaimNothing(s: State, step: Step, i: nat)
    requires Enabled(s, step) && !OfSlot(step)
    ensures |Apply(s, step).slots| == |s.slots|
    ensures i < |s.slots| ==> Apply(s, step).slots[i].inc == s.slots[i].inc
  {
    hide HistOf, Begun, Ended, ApplyToSlot;
  }

  lemma FreshIsUnarmed(s: State, step: Step, i: nat)
    requires Enabled(s, step) && i < |Apply(s, step).slots| && NotYet(s, (i, Apply(s, step).slots[i].inc))
    ensures !Apply(s, step).slots[i].armed && (step.NewSlot? || step.ReuseSlot?)
  {
    hide Apply, Enabled;
    if OfSlot(step) { FreshBySlot(s, step, i); } else { LaterStepsClaimNothing(s, step, i); }
  }

  lemma NotByDelivery(s: State, step: Step, i: nat)
    requires Inv(s) && Enabled(s, step) && i < |s.slots| && Unowned(s, (i, s.slots[i].inc))
    ensures !(step.LeaveDelivery? && s.threads[step.t].slot == i)
  {
    hide HistOk, HistsOk, QueueOk, QueuesOk, Listed, ListedOk, PcStage, Busy, SlotOk, SlotsOk, Distinct, Current;
    if step.LeaveDelivery? {
      assert ThreadOk(s, step.t);
    }
  }

  /** One step keeps a thread's counts balanced. */
  lemma StepBalances(s: State, step: Step, t: nat, y: Tally)
    requires Inv(s) && Enabled(s, step) && BalancedAt(y, s, t)
    ensures BalancedAt(Noted(y, s, step, IdOf(s.threads[t])), Apply(s, step), t)
  {
    hide Apply, Enabled, BalancedAt, Noted, Inv;
    BalancedIs(y, s, t);
    ThreadFacts(s, t);
    if OfSlot(step) {
      if step.ReuseSlot? && step.i == s.threads[t].slot {
        ReusedIsQuiet(s, step, t);
      }
      SlotBalance(s, step, t, y);
    } else if OfThread(step) || OfDelivery(step) {
      ActorIsLive(s, step);
      if step.t != t {
        OtherBalance(s, step, t, y);
      } else if step.FireNow? || step.Fire? || step.Close? {
        if step.Close? { CloseFacts(s, t); }
        OwnFireBalance(s, step, t, y);
      } else if OfThread(step) {
        OwnTurnBalance(s, step, t, y);
      } else {
        OwnDeliveryBalance(s, step, t, y);
      }
    } else if step.CheckJob? || step.BeginCallback? || step.EndCallback? {
      JobActor(s, step);
      if step.t != t { DistinctIds(s, t, step.t); }
      if step.CheckJob? && step.t == t { CleanupRuns(s, t); }
      JobBalance(s, step, t, y);
    } else {
      if step.WorkerTakes? { HeadIsQueued(s, step.q); }
      WorkerBalance(s, step, t, y);
    }
  }

  lemma OtherBalance(s: State, step: Step, t: nat, y: Tally)
    requires Inv(s) && Enabled(s, step) && (OfThread(step) || OfDelivery(step)) && step.t != t && BalancedAt(y, s, t)
    requires t < |s.threads| && step.t < |s.threads| && !s.threads[step.t].pc.Exited?
    ensures BalancedAt(Noted(y, s, step, IdOf(s.threads[t])), Apply(s, step), t)
  {
    hide Apply, Enabled, BalancedAt, Noted, Inv;
    DistinctIds(s, t, step.t);
    if !s.threads[t].pc.Exited? { OthersSlot(s, t, step.t); }
    if OfThread(step) { OtherLoopBalance(s, step, t, y); } else { OtherDeliveryBalance(s, step, t, y); }
  }

  lemma ThreadFacts(s: State, t: nat)
    requires Inv(s)
    ensures t < |s.threads| ==>
      && s.threads[t].queue < |s.queues| && PcStage(s.threads[t], s.queues[s.threads[t].queue].serial)
      && s.threads[t].slot < |s.slots|
      && (!s.threads[t].pc.Exited? ==> s.slots[s.threads[t].slot].inc == s.threads[t].inc)
  {
    hide HistOk, HistsOk, QueueOk, QueuesOk, Listed, ListedOk, PcStage, Busy, SlotOk, SlotsOk, Distinct, Current;
    if t < |s.threads| { assert ThreadOk(s, t); }
  }

  lemma ReusedIsQuiet(s: State, step: Step, t: nat)
    requires Inv(s) && Enabled(s, step) && step.ReuseSlot? && t < |s.threads| && s.threads[t].slot == step.i
    ensures s.threads[t].pc.Exited?
  {
    hide Inv, Reusable;
    ReusableIsQuiet(s, step.i, t);
  }

  lemma ActorIsLive(s: State, step: Step)
    requires Enabled(s, step) && (OfThread(step) || OfDelivery(step))
    ensures step.t < |s.threads| && !s.threads[step.t].pc.Exited?
  {
  }

  lemma JobActor(s: State, step: Step)
    requires Enabled(s, step) && (step.CheckJob? || step.BeginCallback? || step.EndCallback?)
    ensures step.t < |s.threads|
  {
  }

  lemma CloseFacts(s: State, t: nat)
    requires Inv(s) && Enabled(s, Close(t))
    ensures s.threads[t].slot < |s.slots| && s.slots[s.threads[t].slot].retired && !s.slots[s.threads[t].slot].delivered
  {
    hide HistOk, HistsOk, QueueOk, QueuesOk, Listed, ListedOk, Busy, SlotOk, SlotsOk, Distinct;
    assert ThreadOk(s, t);
  }

  lemma CleanupRuns(s: State, t: nat)
    requires Enabled(s, CheckJob(t))
    ensures Apply(s, CheckJob(t)).threads[t].stage.Ran? ==> !s.threads[t].cleanup
  {
  }

  lemma HeadIsQueued(s: State, q: nat)
    requires Inv(s) && Enabled(s, WorkerTakes(q))
    ensures s.threads[s.queues[q].fifo[0]].stage.InQueue?
  {
    hide HistOk, HistsOk, ThreadOk, ThreadsOk, Listed, ListedOk, PcStage, Busy, SlotOk, SlotsOk, Distinct;
    assert QueueOk(s, q);
    assert Waits(s, s.queues[q].fifo[0], q);
  }

  lemma {:induction false} CountsBalance(serial: seq<bool>, steps: seq<Step>, t: nat)
    ensures var s := Reached(serial, steps);
      t < |s.threads| ==> BalancedAt(TallyOf(Init(serial), steps, IdOf(s.threads[t])), s, t)
  {
    hide Enabled, Apply, Inv, Noted, BalancedAt;
    var s := Reached(serial, steps);
    if steps != [] && t < |s.threads| {
      var front, step := steps[..|steps| - 1], steps[|steps| - 1];
      var before := Reached(serial, front);
      ExecKeeps(serial, front);
      CountsBalance(serial, front, t);
      if Enabled(before, step) {
        StepGrows(before, step);
        if t < |before.threads| {
          StepBalances(before, step, t, TallyOf(Init(serial), front, IdOf(s.threads[t])));
        } else {
          SpawnedBalances(serial, steps);
        }
      }
    }
  }

  /** A thread just started: nothing has been counted but armings. */
  lemma SpawnedBalances(serial: seq<bool>, steps: seq<Step>)
    requires steps != []
    requires var before := Reached(serial, steps[..|steps| - 1]);
      Enabled(before, steps[|steps| - 1]) && |Reached(serial, steps).threads| > |before.threads|
    ensures var s := Reached(serial, steps);
      BalancedAt(TallyOf(Init(serial), steps, IdOf(s.threads[|s.threads| - 1])), s, |s.threads| - 1)
  {
    hide Inv;
    var front, step := steps[..|steps| - 1], steps[|steps| - 1];
    var before, s := Reached(serial, front), Reached(serial, steps);
    StepGrows(before, step);
    hide Apply;
    ExecKeeps(serial, front);
    var i := step.i;
    SpawnIsFirst(before, i);
    OnlyArmings(serial, front, i);
    assert s.hist == before.hist by { SpawnKeepsHist(before, i); }
  }

  lemma SpawnKeepsHist(s: State, i: nat)
    requires Enabled(s, Spawn(i))
    ensures Apply(s, Spawn(i)).hist == s.hist
  {
  }

  lemma SpawnIsFirst(s: State, i: nat)
    requires Inv(s) && Enabled(s, Spawn(i))
    ensures Unowned(s, (i, s.slots[i].inc))
  {
    hide HistOk, HistsOk, QueueOk, QueuesOk, Listed, ListedOk, PcStage, Busy, Distinct;
    assert SlotOk(s, i);
    forall t | 0 <= t < |s.threads| ensures IdOf(s.threads[t]) != (i, s.slots[i].inc) {
      assert ThreadOk(s, t);
    }
  }

  // ---- what follows

  /** Over every run and for every thread: each expiry was armed for, is acted on, and with a handler
      leads to one delivery; each delivery has run its callback or was skipped, which takes a
      cancellation; and a thread that is gone has run the cancel callback if there was one. */
  lemma EveryEventIsServed(serial: seq<bool>, steps: seq<Step>, t: nat)
    ensures var s := Reached(serial, steps); t < |s.threads| ==>
      var (th, x) := (s.threads[t], IdOf(s.threads[t]));
      var (y, h) := (TallyOf(Init(serial), steps, x), HistOf(s, x));
      && y.expired <= y.armed
      && y.expired == y.fires + (if th.pc.Firing? then 1 else 0)
      && y.due == y.returned + (if Serving(th) then 1 else 0)
      && y.returned + (if Done(th) then 1 else 0) == h.evEnded + y.skipped
      && (!CancelWritten(Init(serial), steps, x) ==> y.skipped == 0)
      && (th.pc.Exited? ==> y.due == y.returned == h.evEnded + y.skipped && h.cxEnded == if y.closing then 1 else 0)
  {
    hide Exec, Inv, BalancedAt, CancelWritten, TallyOf;
    CountsBalance(serial, steps, t);
    ExecKeeps(serial, steps);
    var s := Reached(serial, steps);
    if t < |s.threads| {
      ThreadFacts(s, t);
      CallbackFacts(s, t);
      SkippedTakesCancel(serial, steps, IdOf(s.threads[t]));
      BalancedIs(TallyOf(Init(serial), steps, IdOf(s.threads[t])), s, t);
    }
  }

  lemma BalancedIs(y: Tally, s: State, t: nat)
    requires BalancedAt(y, s, t)
    ensures t < |s.threads| && s.threads[t].slot < |s.slots| && Balanced(y, HistOf(s, IdOf(s.threads[t])), s.threads[t], s.slots[s.threads[t].slot])
  {
  }

  lemma CallbackFacts(s: State, t: nat)
    requires Inv(s) && t < |s.threads|
    ensures HistOk(HistOf(s, IdOf(s.threads[t])), s.threads[t])
  {
    hide ThreadOk, ThreadsOk, SlotOk, SlotsOk, QueueOk, QueuesOk, Listed, ListedOk, Busy, Distinct, HistOk;
  }

  lemma {:induction false} SkippedTakesCancel(serial: seq<bool>, steps: seq<Step>, x: (nat, nat))
    ensures TallyOf(Init(serial), steps, x).skipped > 0 ==> CancelWritten(Init(serial), steps, x)
  {
    hide Enabled, Apply, Cancels, Checked;
    if steps != [] {
      var front, step := steps[..|steps| - 1], steps[|steps| - 1];
      SkippedTakesCancel(serial, front, x);
      if Enabled(Reached(serial, front), step) && step.CheckJob? {
        SkippedIffCancelled(serial, front, step.t);
      }
    }
  }
}
