/** What can still happen: a waiting delivery can always come back, and an armed source can be served. */
module SourceProgress {
  import opened Wrappers
  import opened Sources
  import opened SourceInvariants
  import opened SourceSteps
  import opened SourceTheorems
  import opened SourceCounts

  lemma {:induction false} ExecAppend(s: State, a: seq<Step>, b: seq<Step>)
    ensures Exec(s, a + b) == Exec(Exec(s, a), b)
    decreases |b|
  {
    hide Apply, Enabled;
    if b == [] {
      assert a + b == a;
    } else {
      ExecAppend(s, a, b[..|b| - 1]);
      assert (a + b)[..|a + b| - 1] == a + b[..|b| - 1];
    }
  }

  lemma ExecStep(s: State, step: Step, rest: seq<Step>)
    requires Enabled(s, step)
    ensures Exec(s, [step] + rest) == Exec(Apply(s, step), rest)
  {
    hide Apply, Enabled;
    assert [step][..0] == [];
    assert Exec(s, [step]) == Apply(s, step);
    ExecAppend(s, [step], rest);
  }

  // ---- a queue works its way down to any job on it

  /** Turns of queue `q` until it has nothing left. */
  function Work(s: State, q: nat): nat
    requires q < |s.queues|
  {
    var k := s.queues[q];
    8 * |k.fifo| +
    if k.job.Some? then
      (if StageIs(s, k.job.value, Took) then 4 else if StageIs(s, k.job.value, Decided) then 3
       else if StageIs(s, k.job.value, Calling) then 2 else 1)
    else if k.awake then 0 else if k.wake then 1 else 2
  }

  /** Callbacks of a kind that have returned. */
  function Ended(h: Hist, cleanup: bool): nat { if cleanup then h.cxEnded else h.evEnded }

  /** The thread waits for its job; with its callback, unless that is skipped, `ended` will have returned. */
  ghost predicate Awaits(s: State, t: nat, ended: nat) {
    && At(s, t, Awaiting)
    && (s.threads[t].cleanup || s.slots[s.threads[t].slot].running ==>
          Ended(HistOf(s, IdOf(s.threads[t])), s.threads[t].cleanup)
            + (if s.threads[t].stage.Ran? || s.threads[t].stage.Signalled? then 0 else 1) == ended)
  }

  /** A queue's turns move nothing of a waiting thread but its job's stage. */
  ghost predicate Kept(s: State, s': State, t: nat) {
    && t < |s.threads| && t < |s'.threads| && s'.slots == s.slots
    && s'.threads[t] == s.threads[t].(stage := s'.threads[t].stage)
  }

  lemma TurnIsWork(s: State, q: nat)
    requires Inv(s) && q < |s.queues| && Advances(s, q, NextFor(s, q)) && Enabled(s, NextFor(s, q))
    ensures q < |Apply(s, NextFor(s, q)).queues| && Work(Apply(s, NextFor(s, q)), q) < Work(s, q)
  {
    hide SlotOk, SlotsOk, HistOk, HistsOk, HistOf, Distinct, Busy, Listed, ListedOk, ThreadsOk;
    hide ApplyToSlot, ApplyToThread;
    var k := s.queues[q];
    assert QueueOk(s, q);
    if k.job.Some? {
      assert Served(s, k.job.value, q);
    } else if k.fifo != [] {
      assert Waits(s, k.fifo[0], q);
    }
  }

  lemma JobKeepsWaiter(s: State, step: Step, t: nat, ended: nat)
    requires Enabled(s, step) && (step.CheckJob? || step.BeginCallback? || step.EndCallback?) && Awaits(s, t, ended)
    requires step.t != t ==> IdOf(s.threads[step.t]) != IdOf(s.threads[t])
    ensures Awaits(Apply(s, step), t, ended) && Kept(s, Apply(s, step), t)
  {
    hide ApplyToSlot, ApplyToThread, ApplyToDelivery;
  }

  lemma QueueKeepsWaiter(s: State, step: Step, t: nat, ended: nat)
    requires Enabled(s, step) && (step.SetWake? || step.WorkerWakes? || step.WorkerTakes? || step.WorkerSignals?)
    requires Awaits(s, t, ended)
    requires step.WorkerTakes? ==> s.threads[s.queues[step.q].fifo[0]].stage.InQueue?
    ensures Awaits(Apply(s, step), t, ended) && Kept(s, Apply(s, step), t)
  {
    hide ApplyToSlot, ApplyToThread;
  }

  lemma TurnKeepsWaiter(s: State, q: nat, t: nat, ended: nat)
    requires Inv(s) && Awaits(s, t, ended) && q < |s.queues|
    requires Advances(s, q, NextFor(s, q)) && Enabled(s, NextFor(s, q))
    ensures Awaits(Apply(s, NextFor(s, q)), t, ended) && Kept(s, Apply(s, NextFor(s, q)), t)
  {
    hide Inv, Apply, HistOf, Awaits;
    var step := NextFor(s, q);
    WaiterIs(s, t, ended);
    if step.CheckJob? || step.BeginCallback? || step.EndCallback? {
      if step.t != t { DistinctIds(s, t, step.t); }
      JobKeepsWaiter(s, step, t, ended);
    } else {
      if step.WorkerTakes? { HeadIsQueued(s, step.q); }
      QueueKeepsWaiter(s, step, t, ended);
    }
  }

  lemma WaiterIs(s: State, t: nat, ended: nat)
    requires Awaits(s, t, ended)
    ensures At(s, t, Awaiting)
  {
  }

  /** The queue's own turns bring a waiting thread's delivery to its end, and with it the callback. */
  lemma {:induction false} QueueServes(s: State, t: nat, ended: nat) returns (turns: seq<Step>)
    requires Inv(s) && Awaits(s, t, ended)
    ensures var s' := Exec(s, turns); Inv(s') && Awaits(s', t, ended) && s'.threads[t].stage.Signalled?
    ensures Kept(s, Exec(s, turns), t)
    decreases Work(s, s.threads[t].queue)
  {
    hide Inv, Apply, Enabled, Advances, NextFor, Work, Awaits;
    WaiterIs(s, t, ended);
    var q := s.threads[t].queue;
    if s.threads[t].stage.Signalled? {
      turns := [];
    } else {
      WaiterHasNext(s, t);
      var step := NextFor(s, q);
      TurnIsWork(s, q);
      TurnKeepsWaiter(s, q, t, ended);
      StepKeeps(s, step);
      var rest := QueueServes(Apply(s, step), t, ended);
      ExecStep(s, step, rest);
      turns := [step] + rest;
    }
  }

  /** A waiting thread can always return: its queue's own turns get it there. */
  lemma WaiterCanReturn(serial: seq<bool>, before: seq<Step>, t: nat)
    requires At(Reached(serial, before), t, Awaiting)
    ensures exists turns :: Enabled(Exec(Reached(serial, before), turns), Awaited(t))
  {
    hide Inv, Exec;
    ExecKeeps(serial, before);
    var s := Reached(serial, before);
    var h := Ended(HistOf(s, IdOf(s.threads[t])), s.threads[t].cleanup);
    var turns := QueueServes(s, t, h + if s.threads[t].stage.Ran? || s.threads[t].stage.Signalled? then 0 else 1);
    assert Enabled(Exec(s, turns), Awaited(t));
  }

  // ---- one delivery, from its start to its return

  /** Where a thread and its slot stand. */
  ghost predicate View(s: State, t: nat, th: Thread, c: Slot) {
    t < |s.threads| && s.threads[t] == th && th.slot < |s.slots| && s.slots[th.slot] == c && th.queue < |s.queues|
  }

  /** One enabled step after another. */
  lemma Go(s: State, step: Step, rest: seq<Step>) returns (next: State)
    requires Inv(s) && Enabled(s, step)
    ensures next == Apply(s, step) && Inv(next) && Exec(s, [step] + rest) == Exec(next, rest)
  {
    hide Inv, Exec, Apply, Enabled;
    next := Apply(s, step);
    StepKeeps(s, step);
    ExecStep(s, step, rest);
  }

  lemma EnterView(s: State, t: nat, th: Thread, c: Slot)
    requires View(s, t, th, c) && th.pc.Enter?
    ensures Enabled(s, EnterDelivery(t)) && Apply(s, EnterDelivery(t)).hist == s.hist
    ensures var serial := s.queues[th.queue].serial;
      View(Apply(s, EnterDelivery(t)), t, th.(pc := if serial then Queueing else Inline, stage := if serial then Idle else Took), c)
  {
    hide ApplyToSlot, ApplyToThread, ApplyToWorker, Left, Enqueued;
  }

  lemma EnqueueView(s: State, t: nat, th: Thread, c: Slot)
    requires View(s, t, th, c) && th.pc.Queueing?
    ensures Enabled(s, Enqueue(t)) && Apply(s, Enqueue(t)).hist == s.hist
    ensures View(Apply(s, Enqueue(t)), t, th.(pc := Waking, stage := InQueue), c)
  {
    hide ApplyToSlot, ApplyToThread, ApplyToWorker, Left, Entered;
  }

  lemma WakeView(s: State, t: nat, th: Thread, c: Slot)
    requires View(s, t, th, c) && th.pc.Waking?
    ensures Enabled(s, SetWake(t)) && Apply(s, SetWake(t)).hist == s.hist
    ensures View(Apply(s, SetWake(t)), t, th.(pc := Awaiting), c)
  {
    hide ApplyToSlot, ApplyToThread, ApplyToWorker, Left, Entered, Enqueued;
  }

  lemma EnterSerial(s: State, t: nat, th: Thread, c: Slot) returns (s': State, steps: seq<Step>)
    requires Inv(s) && View(s, t, th, c) && th.pc.Enter? && s.queues[th.queue].serial
    ensures Inv(s') && s' == Exec(s, steps)
    ensures View(s', t, th.(pc := Awaiting, stage := InQueue), c) && s'.hist == s.hist
  {
    hide Inv, Exec, Apply, Enabled;
    EnterView(s, t, th, c);
    var a := Go(s, EnterDelivery(t), [Enqueue(t)] + ([SetWake(t)] + []));
    EnqueueView(a, t, a.threads[t], c);
    var b := Go(a, Enqueue(t), [SetWake(t)] + []);
    WakeView(b, t, b.threads[t], c);
    s' := Go(b, SetWake(t), []);
    NoSteps(s');
    steps := [EnterDelivery(t)] + ([Enqueue(t)] + ([SetWake(t)] + []));
  }

  /** The thread's own job, from being taken to having run. */
  lemma InlineRuns(s: State, t: nat, th: Thread, c: Slot) returns (s': State, steps: seq<Step>)
    requires Inv(s) && View(s, t, th, c) && th.pc.Inline? && th.stage.Took? && (th.cleanup || c.running)
    ensures Inv(s') && s' == Exec(s, steps) && View(s', t, th.(stage := Ran), c)
    ensures Ended(HistOf(s', IdOf(th)), th.cleanup) == Ended(HistOf(s, IdOf(th)), th.cleanup) + 1
  {
    hide Inv, Exec, ApplyToSlot, ApplyToThread, ApplyToDelivery;
    var a := Go(s, CheckJob(t), [BeginCallback(t)] + ([EndCallback(t)] + []));
    var b := Go(a, BeginCallback(t), [EndCallback(t)] + []);
    s' := Go(b, EndCallback(t), []);
    NoSteps(s');
    steps := [CheckJob(t)] + ([BeginCallback(t)] + ([EndCallback(t)] + []));
  }

  lemma InlineReturns(s: State, t: nat, th: Thread, c: Slot)
    requires View(s, t, th, c) && th.pc.Inline? && th.stage.Ran?
    ensures Enabled(s, InlineDone(t)) && Apply(s, InlineDone(t)).hist == s.hist
    ensures View(Apply(s, InlineDone(t)), t, th.(pc := Leave, stage := Idle), c)
  {
    hide ApplyToSlot, ApplyToThread, ApplyToWorker, Left, Entered, Enqueued;
  }

  lemma EnterInline(s: State, t: nat, th: Thread, c: Slot) returns (s': State, steps: seq<Step>)
    requires Inv(s) && View(s, t, th, c) && th.pc.Enter? && !s.queues[th.queue].serial && (th.cleanup || c.running)
    ensures Inv(s') && s' == Exec(s, steps)
    ensures View(s', t, th.(pc := Leave, stage := Idle), c)
    ensures Ended(HistOf(s', IdOf(th)), th.cleanup) == Ended(HistOf(s, IdOf(th)), th.cleanup) + 1
  {
    hide Inv, Exec, Apply, Enabled, HistOf;
    EnterView(s, t, th, c);
    var a := Go(s, EnterDelivery(t), []);
    NoSteps(a);
    SameHist(s, a, IdOf(th));
    var b, run := InlineRuns(a, t, a.threads[t], c);
    InlineReturns(b, t, b.threads[t], c);
    s' := Go(b, InlineDone(t), []);
    NoSteps(s');
    SameHist(b, s', IdOf(th));
    steps := ([EnterDelivery(t)] + []) + (run + ([InlineDone(t)] + []));
    ExecAppend(a, run, [InlineDone(t)] + []);
    ExecAppend(s, [EnterDelivery(t)] + [], run + ([InlineDone(t)] + []));
  }

  lemma AwaitedReturns(s: State, t: nat)
    requires Inv(s) && At(s, t, Awaiting) && s.threads[t].stage.Signalled?
    ensures var s' := Exec(s, [Awaited(t)] + []);
      && Inv(s') && At(s', t, Leave) && s'.slots == s.slots && s'.hist == s.hist
      && s'.threads[t] == s.threads[t].(pc := Leave, stage := Idle)
  {
    hide Inv, ApplyToSlot, ApplyToThread, ApplyToWorker;
    StepKeeps(s, Awaited(t));
    ExecStep(s, Awaited(t), []);
    NoSteps(Apply(s, Awaited(t)));
  }

  /** A delivery that is begun can come to its return, its callback run. */
  lemma DeliveryRuns(s: State, t: nat) returns (s': State, steps: seq<Step>)
    requires Inv(s) && At(s, t, Enter) && (s.threads[t].cleanup || s.slots[s.threads[t].slot].running)
    ensures Inv(s') && s' == Exec(s, steps) && At(s', t, Leave) && IdOf(s'.threads[t]) == IdOf(s.threads[t])
    ensures s'.threads[t].cleanup == s.threads[t].cleanup
    ensures var (x, cleanup) := (IdOf(s.threads[t]), s.threads[t].cleanup);
      Ended(HistOf(s', x), cleanup) == Ended(HistOf(s, x), cleanup) + 1
  {
    hide Inv, Exec, HistOf;
    var th, c := s.threads[t], s.slots[s.threads[t].slot];
    if s.queues[th.queue].serial {
      var a, first := EnterSerial(s, t, th, c);
      SameHist(s, a, IdOf(th));
      var ended := Ended(HistOf(s, IdOf(th)), th.cleanup) + 1;
      var turns := QueueServes(a, t, ended);
      var b := Exec(a, turns);
      AwaitedReturns(b, t);
      s' := Exec(b, [Awaited(t)] + []);
      SameHist(b, s', IdOf(th));
      steps := first + (turns + ([Awaited(t)] + []));
      ExecAppend(a, turns, [Awaited(t)] + []);
      ExecAppend(s, first, turns + ([Awaited(t)] + []));
    } else {
      s', steps := EnterInline(s, t, th, c);
    }
  }

  lemma SameHist(s: State, s': State, x: (nat, nat))
    requires s'.hist == s.hist
    ensures HistOf(s', x) == HistOf(s, x)
  {
  }

  lemma NoSteps(s: State)
    ensures Exec(s, []) == s
  {
  }

  // ---- the timer's loop

  lemma LoopWaits(s: State, t: nat, th: Thread, c: Slot) returns (s': State, steps: seq<Step>)
    requires Inv(s) && View(s, t, th, c) && th.pc.Top? && c.running && c.armed
    ensures Inv(s') && s' == Exec(s, steps) && s'.hist == s.hist && View(s', t, th.(pc := Waiting(true)), c)
  {
    hide Inv, Exec, ApplyToSlot, ApplyToDelivery, ApplyToWorker, Closed, Fired;
    var a := Go(s, TestRunning(t), [StartWait(t)] + []);
    s' := Go(a, StartWait(t), []);
    NoSteps(s');
    steps := [TestRunning(t)] + ([StartWait(t)] + []);
  }

  lemma WaitExpires(s: State, t: nat, th: Thread, c: Slot) returns (s': State, steps: seq<Step>)
    requires Inv(s) && View(s, t, th, c) && th.pc == Waiting(true) && c.running && c.hasEvent
    ensures Inv(s') && s' == Exec(s, steps) && s'.hist == s.hist && View(s', t, th.(pc := Enter), c.(armed := false))
  {
    hide Inv, Exec, ApplyToSlot, ApplyToDelivery, ApplyToWorker, Closed;
    var a := Go(s, TimeOut(t), [AfterWait(t)] + ([Fire(t)] + []));
    var b := Go(a, AfterWait(t), [Fire(t)] + []);
    s' := Go(b, Fire(t), []);
    NoSteps(s');
    steps := [TimeOut(t)] + ([AfterWait(t)] + ([Fire(t)] + []));
  }

  /** The loop goes round once: the timer comes due and its thread starts a delivery. */
  lemma TimerComesDue(s: State, t: nat) returns (s': State, steps: seq<Step>)
    requires Inv(s) && At(s, t, Top)
    requires var c := s.slots[s.threads[t].slot]; c.running && c.armed && c.hasEvent
    ensures Inv(s') && s' == Exec(s, steps) && s'.hist == s.hist
    ensures View(s', t, s.threads[t].(pc := Enter), s.slots[s.threads[t].slot].(armed := false))
  {
    hide Inv, Exec;
    var th, c := s.threads[t], s.slots[s.threads[t].slot];
    var a, wait := LoopWaits(s, t, th, c);
    var rest;
    s', rest := WaitExpires(a, t, a.threads[t], c);
    steps := wait + rest;
    ExecAppend(s, wait, rest);
  }

  /** From every reachable state an armed source that runs and has a handler can be served: some
      continuation runs its event callback once more, whatever else is queued before it. */
  lemma ArmedSourceCanFire(serial: seq<bool>, before: seq<Step>, t: nat)
    requires var s := Reached(serial, before);
      At(s, t, Top) && var c := s.slots[s.threads[t].slot]; c.running && c.armed && c.hasEvent
    ensures var s := Reached(serial, before);
      exists after :: HistOf(Exec(s, after), IdOf(s.threads[t])).evEnded == HistOf(s, IdOf(s.threads[t])).evEnded + 1
  {
    hide Inv, Exec, HistOf;
    ExecKeeps(serial, before);
    var s := Reached(serial, before);
    ThreadFacts(s, t);
    LoopIsNoCleanup(s, t);
    var a, first := TimerComesDue(s, t);
    SameHist(s, a, IdOf(s.threads[t]));
    var b, rest := DeliveryRuns(a, t);
    ExecAppend(s, first, rest);
    assert HistOf(Exec(s, first + rest), IdOf(s.threads[t])).evEnded == HistOf(s, IdOf(s.threads[t])).evEnded + 1;
  }

  lemma LoopIsNoCleanup(s: State, t: nat)
    requires Inv(s) && At(s, t, Top)
    ensures !s.threads[t].cleanup
  {
    hide HistOk, HistsOk, QueueOk, QueuesOk, Listed, ListedOk, Busy, SlotOk, SlotsOk, Distinct;
    assert ThreadOk(s, t);
  }

  /** And the cancel callback of a cancelled source can always run: from the moment its thread is
      back at the top of its loop. */
  lemma CancelledSourceCanClose(serial: seq<bool>, before: seq<Step>, t: nat)
    requires var s := Reached(serial, before);
      At(s, t, Top) && s.lock.Free? && var c := s.slots[s.threads[t].slot]; !c.running && c.hasCancel
    ensures var s := Reached(serial, before);
      exists after :: HistOf(Exec(s, after), IdOf(s.threads[t])).cxEnded == 1 + HistOf(s, IdOf(s.threads[t])).cxEnded
  {
    hide Inv, Exec, HistOf;
    ExecKeeps(serial, before);
    var s := Reached(serial, before);
    var a, first := SourceCloses(s, t);
    SameHist(s, a, IdOf(s.threads[t]));
    var b, rest := DeliveryRuns(a, t);
    ExecAppend(s, first, rest);
    assert HistOf(Exec(s, first + rest), IdOf(s.threads[t])).cxEnded == HistOf(s, IdOf(s.threads[t])).cxEnded + 1;
  }

  lemma SourceCloses(s: State, t: nat) returns (s': State, steps: seq<Step>)
    requires Inv(s) && At(s, t, Top) && s.lock.Free?
    requires !s.slots[s.threads[t].slot].running && s.slots[s.threads[t].slot].hasCancel
    ensures Inv(s') && s' == Exec(s, steps) && s'.hist == s.hist
    ensures At(s', t, Enter) && s'.threads[t].cleanup && IdOf(s'.threads[t]) == IdOf(s.threads[t])
  {
    hide Inv, Exec, ApplyToSlot, ApplyToDelivery, ApplyToWorker, Fired;
    var a := Apply(s, TestRunning(t));
    StepKeeps(s, TestRunning(t));
    assert At(a, t, Closing) && a.slots == s.slots && a.hist == s.hist && a.lock.Free?;
    assert a.threads[t] == s.threads[t].(pc := Closing);
    CloseFacts(a, t);
    s' := Apply(a, Close(t));
    StepKeeps(a, Close(t));
    steps := [TestRunning(t)] + ([Close(t)] + []);
    ExecStep(s, TestRunning(t), [Close(t)] + []);
    ExecStep(a, Close(t), []);
    NoSteps(s');
  }

  /** Resuming a source starts it: a new thread of its own stands at the top of its loop. */
  lemma SourceCanStart(serial: seq<bool>, before: seq<Step>, i: nat)
    requires Enabled(Reached(serial, before), ResumeLock(i))
    ensures var s := Reached(serial, before);
      var s' := Exec(s, [ResumeLock(i)] + ([Spawn(i)] + ([Publish(i)] + [])));
      && At(s', |s.threads|, Top) && IdOf(s'.threads[|s.threads|]) == (i, s.slots[i].inc) && s'.slots[i].running
      && s'.slots[i].armed == s.slots[i].armed && s'.slots[i].hasEvent == s.slots[i].hasEvent && s'.slots[i].hasCancel == s.slots[i].hasCancel
  {
    hide Inv, Exec, ApplyToThread, ApplyToDelivery, ApplyToWorker;
    ExecKeeps(serial, before);
    var s := Reached(serial, before);
    IdleSlot(s, i);
    var a := Go(s, ResumeLock(i), [Spawn(i)] + ([Publish(i)] + []));
    var b := Go(a, Spawn(i), [Publish(i)] + []);
    var c := Go(b, Publish(i), []);
    NoSteps(c);
  }

  lemma IdleSlot(s: State, i: nat)
    requires Inv(s) && Enabled(s, ResumeLock(i))
    ensures s.slots[i].pending.None? && s.slots[i].queue < |s.queues|
  {
    hide HistOk, HistsOk, QueueOk, QueuesOk, Listed, ListedOk, PcStage, Busy, Distinct, ThreadOk, ThreadsOk;
    assert SlotOk(s, i);
  }
}
