/** What the source protocol promises, over every interleaving from an empty pool. */
module SourceTheorems {
  import opened Wrappers
  import opened Sources
  import opened SourceInvariants
  import opened SourceSteps

  function Reached(serial: seq<bool>, steps: seq<Step>): State { Exec(Init(serial), steps) }

  predicate InCallback(s: State, t: nat, q: nat) {
    t < |s.threads| && s.threads[t].queue == q && s.threads[t].stage.Calling?
  }

  // ---- serial delivery

  lemma AtMostOneCallback(serial: seq<bool>, steps: seq<Step>, q: nat, t: nat, u: nat)
    ensures var s := Reached(serial, steps);
      q < |s.queues| && s.queues[q].serial && InCallback(s, t, q) && InCallback(s, u, q) ==> t == u
  {
    hide Exec, SlotOk, SlotsOk, HistOk, HistsOk, Distinct, Busy, QueueOk, QueuesOk;
    ExecKeeps(serial, steps);
    var s := Reached(serial, steps);
    if q < |s.queues| && s.queues[q].serial && InCallback(s, t, q) && InCallback(s, u, q) {
      assert ThreadOk(s, t) && ThreadOk(s, u) && Listed(s, t) && Listed(s, u);
    }
  }

  /** Whatever was enqueued is settled in that order, then in hand, then still waiting. */
  lemma SettledInOrder(serial: seq<bool>, steps: seq<Step>, q: nat)
    ensures var s := Reached(serial, steps); q < |s.queues| ==>
      var k := s.queues[q]; k.enqueued == k.settled + InHand(k) + k.fifo
  {
    hide Exec, ThreadOk, SlotOk, SlotsOk, HistOk, HistsOk, Distinct, Busy;
    ExecKeeps(serial, steps);
    if q < |Reached(serial, steps).queues| {
      assert QueueOk(Reached(serial, steps), q);
    }
  }

  /** The deliveries of a run: threads in the order they entered queue `q`'s list. */
  function Arrivals(s: State, steps: seq<Step>, q: nat): seq<nat>
    decreases |steps|
  {
    if steps == [] then []
    else
      var front := steps[..|steps| - 1];
      var step := steps[|steps| - 1];
      var before := Exec(s, front);
      Arrivals(s, front, q) +
      if step.Enqueue? && Enabled(before, step) && before.threads[step.t].queue == q then [step.t] else []
  }

  /** The callbacks of a run: threads in the order their callback began on queue `q`. */
  function Callbacks(s: State, steps: seq<Step>, q: nat): seq<nat>
    decreases |steps|
  {
    if steps == [] then []
    else
      var front := steps[..|steps| - 1];
      var step := steps[|steps| - 1];
      var before := Exec(s, front);
      Callbacks(s, front, q) +
      if step.BeginCallback? && Enabled(before, step) && before.threads[step.t].queue == q then [step.t] else []
  }

  /** `a` is `b` with some elements dropped. */
  predicate Thinned(a: seq<nat>, b: seq<nat>)
    decreases |b|
  {
    if a == [] then true
    else b != [] && (Thinned(a, b[..|b| - 1]) || (a[|a| - 1] == b[|b| - 1] && Thinned(a[..|a| - 1], b[..|b| - 1])))
  }

  lemma ThinnedPush(a: seq<nat>, b: seq<nat>, x: nat)
    requires Thinned(a, b)
    ensures Thinned(a, b + [x]) && Thinned(a + [x], b + [x])
  {
    assert (b + [x])[..|b|] == b && (a + [x])[..|a|] == a;
  }

  lemma {:induction false} ThinnedMore(a: seq<nat>, b: seq<nat>, c: seq<nat>)
    requires Thinned(a, b)
    ensures Thinned(a, b + c)
  {
    if c == [] {
      assert b + c == b;
    } else {
      var n := |c| - 1;
      ThinnedMore(a, b, c[..n]);
      ThinnedPush(a, b + c[..n], c[n]);
      assert b + c == b + c[..n] + [c[n]];
    }
  }

  /** The job in hand has not begun its callback. */
  predicate NotBegun(s: State, k: Queue) {
    k.job.Some? ==> StageIs(s, k.job.value, Took) || StageIs(s, k.job.value, Decided)
  }

  ghost predicate InOrder(s: State, k: Queue, calls: seq<nat>) {
    Thinned(calls, k.settled + InHand(k)) && (NotBegun(s, k) ==> Thinned(calls, k.settled))
  }

  /** On a serial queue callbacks begin in arrival order; a cancelled event may be skipped, none runs twice. */
  lemma {:induction false} CallbacksFollowArrivals(serial: seq<bool>, steps: seq<Step>, q: nat)
    requires q < |serial| && serial[q]
    ensures Thinned(Callbacks(Init(serial), steps, q), Arrivals(Init(serial), steps, q))
  {
    hide InOrder, Thinned, Exec, Callbacks, Arrivals;
    ArrivalsAreEnqueued(serial, steps, q);
    CallbacksInOrder(serial, steps, q);
    SettledInOrder(serial, steps, q);
    InOrderIsThinned(Reached(serial, steps), q, Callbacks(Init(serial), steps, q));
  }

  lemma InOrderIsThinned(s: State, q: nat, calls: seq<nat>)
    requires q < |s.queues| && InOrder(s, s.queues[q], calls)
    requires s.queues[q].enqueued == s.queues[q].settled + InHand(s.queues[q]) + s.queues[q].fifo
    ensures Thinned(calls, s.queues[q].enqueued)
  {
    hide Thinned;
    ThinnedMore(calls, s.queues[q].settled + InHand(s.queues[q]), s.queues[q].fifo);
  }

  lemma {:induction false} ArrivalsAreEnqueued(serial: seq<bool>, steps: seq<Step>, q: nat)
    requires q < |serial|
    ensures var s := Reached(serial, steps);
      |s.queues| == |serial| && s.queues[q].serial == serial[q] && s.queues[q].enqueued == Arrivals(Init(serial), steps, q)
  {
    hide Apply, Enabled;
    if steps != [] {
      var front := steps[..|steps| - 1];
      var step := steps[|steps| - 1];
      ArrivalsAreEnqueued(serial, front, q);
      if Enabled(Reached(serial, front), step) {
        EnqueuedStep(Reached(serial, front), step, q);
      }
    }
  }

  /** What a step does to the arrivals of queue `q`. */
  ghost predicate Arrives(s: State, s': State, step: Step, q: nat)
    requires q < |s.queues| && (step.Enqueue? ==> step.t < |s.threads|)
  {
    && |s'.queues| == |s.queues| && s'.queues[q].serial == s.queues[q].serial
    && s'.queues[q].enqueued == s.queues[q].enqueued +
         if step.Enqueue? && s.threads[step.t].queue == q then [step.t] else []
  }

  lemma SlotArrives(s: State, step: Step, q: nat)
    requires Enabled(s, step) && OfSlot(step) && q < |s.queues|
    ensures Arrives(s, Apply(s, step), step, q)
  {
    hide Reusable, Claimable, Begun, Ended, HistOf;
    hide ApplyToThread, ApplyToDelivery, ApplyToWorker;
  }

  lemma ThreadArrives(s: State, step: Step, q: nat)
    requires Enabled(s, step) && OfThread(step) && q < |s.queues|
    ensures Arrives(s, Apply(s, step), step, q)
  {
    hide Reusable, Claimable, Begun, Ended, HistOf;
    hide ApplyToSlot, ApplyToDelivery, ApplyToWorker;
  }

  lemma DeliveryArrives(s: State, step: Step, q: nat)
    requires Enabled(s, step) && OfDelivery(step) && q < |s.queues|
    ensures Arrives(s, Apply(s, step), step, q)
  {
    hide Reusable, Claimable, Begun, Ended, HistOf;
    hide ApplyToSlot, ApplyToThread, ApplyToWorker;
  }

  lemma WorkerArrives(s: State, step: Step, q: nat)
    requires Enabled(s, step) && !OfSlot(step) && !OfThread(step) && !OfDelivery(step) && q < |s.queues|
    ensures Arrives(s, Apply(s, step), step, q)
  {
    hide Reusable, Claimable, Begun, Ended, HistOf;
    hide ApplyToSlot, ApplyToThread, ApplyToDelivery;
  }

  lemma EnqueuedStep(s: State, step: Step, q: nat)
    requires Enabled(s, step) && q < |s.queues|
    ensures var s' := Apply(s, step);
      |s'.queues| == |s.queues| && s'.queues[q].serial == s.queues[q].serial
      && s'.queues[q].enqueued == s.queues[q].enqueued +
           if step.Enqueue? && s.threads[step.t].queue == q then [step.t] else []
  {
    hide Apply;
    if OfSlot(step) { SlotArrives(s, step, q); }
    else if OfThread(step) { ThreadArrives(s, step, q); }
    else if OfDelivery(step) { DeliveryArrives(s, step, q); }
    else { WorkerArrives(s, step, q); }
  }

  lemma {:induction false} CallbacksInOrder(serial: seq<bool>, steps: seq<Step>, q: nat)
    requires q < |serial| && serial[q]
    ensures |Reached(serial, steps).queues| == |serial|
    ensures InOrder(Reached(serial, steps), Reached(serial, steps).queues[q], Callbacks(Init(serial), steps, q))
  {
    hide Apply, Enabled, InOrder, Inv, Arrivals, Thinned, StageIs;
    ArrivalsAreEnqueued(serial, steps, q);
    if steps == [] {
      EmptyInOrder(Reached(serial, steps), q);
    } else {
      var front, step := steps[..|steps| - 1], steps[|steps| - 1];
      var s, calls := Reached(serial, front), Callbacks(Init(serial), front, q);
      CallbacksInOrder(serial, front, q);
      ArrivalsAreEnqueued(serial, front, q);
      ExecKeeps(serial, front);
      if !Enabled(s, step) {
        assert Callbacks(Init(serial), steps, q) == calls;
      } else if step.BeginCallback? {
        BeginIs(s, step.t);
        if s.threads[step.t].queue == q {
          BeginOrder(s, step.t, q, calls);
        } else {
          assert Callbacks(Init(serial), steps, q) == calls;
          OtherOrder(s, step, q, calls);
        }
      } else {
        assert Callbacks(Init(serial), steps, q) == calls;
        WorkerIs(s, q, step);
        if step == WorkerTakes(q) {
          TakeOrder(s, q, calls);
        } else if step == WorkerSignals(q) {
          SignalOrder(s, q, calls);
        } else {
          OtherOrder(s, step, q, calls);
        }
      }
    }
  }

  lemma EmptyInOrder(s: State, q: nat)
    requires q < |s.queues|
    ensures InOrder(s, s.queues[q], [])
  {
  }

  lemma BeginOrder(s: State, t: nat, q: nat, calls: seq<nat>)
    requires Inv(s) && StageIs(s, t, Decided) && s.threads[t].queue == q && s.queues[q].serial
    requires InOrder(s, s.queues[q], calls)
    ensures InOrder(Begins(s, t), s.queues[q], calls + [t])
  {
    hide SlotOk, SlotsOk, HistOk, HistsOk, Distinct, Busy, QueueOk, QueuesOk, Thinned;
    assert ThreadOk(s, t) && Listed(s, t);
    ThinnedPush(calls, s.queues[q].settled, t);
  }

  lemma TakeOrder(s: State, q: nat, calls: seq<nat>)
    requires Enabled(s, WorkerTakes(q)) && InOrder(s, s.queues[q], calls)
    ensures InOrder(Taken(s, q), Taken(s, q).queues[q], calls)
  {
    hide Thinned;
    var k := s.queues[q];
    assert k.settled + InHand(k) == k.settled;
    ThinnedPush(calls, k.settled, k.fifo[0]);
  }

  lemma SignalOrder(s: State, q: nat, calls: seq<nat>)
    requires Enabled(s, WorkerSignals(q)) && InOrder(s, s.queues[q], calls)
    ensures InOrder(Signals(s, q), Signals(s, q).queues[q], calls)
  {
    hide Thinned;
    var k' := Signals(s, q).queues[q];
    assert k'.settled + InHand(k') == k'.settled;
  }

  lemma OtherOrder(s: State, step: Step, q: nat, calls: seq<nat>)
    requires Inv(s) && Enabled(s, step) && q < |s.queues| && q < |Apply(s, step).queues| && InOrder(s, s.queues[q], calls)
    requires step != WorkerTakes(q) && step != WorkerSignals(q)
    requires step.BeginCallback? ==> s.threads[step.t].queue != q
    ensures InOrder(Apply(s, step), Apply(s, step).queues[q], calls)
  {
    hide Thinned, Apply, Enabled, Inv, NotBegun;
    HandUnchanged(s, step, q);
  }

  /** Slot steps and the source thread's own loop leave every queue and every job's stage alone. */
  lemma LoopsLeaveJobs(s: State, step: Step, t: nat)
    requires Enabled(s, step) && (OfSlot(step) || OfThread(step)) && t < |s.threads|
    ensures Apply(s, step).queues == s.queues
    ensures t < |Apply(s, step).threads| && Apply(s, step).threads[t].stage == s.threads[t].stage
    ensures IdOf(Apply(s, step).threads[t]) == IdOf(s.threads[t]) && Apply(s, step).threads[t].queue == s.threads[t].queue
  {
    hide Reusable, Claimable;
    if OfSlot(step) {
      hide Fired, Closed;
    } else {
      hide CancelStage;
    }
  }

  lemma HandUnchanged(s: State, step: Step, q: nat)
    requires Inv(s) && Enabled(s, step) && q < |s.queues| && q < |Apply(s, step).queues|
    requires step != WorkerTakes(q) && step != WorkerSignals(q)
    requires step.BeginCallback? ==> s.threads[step.t].queue != q
    ensures var k, k' := s.queues[q], Apply(s, step).queues[q];
      k'.settled == k.settled && k'.job == k.job && (NotBegun(Apply(s, step), k') ==> NotBegun(s, k))
  {
    hide Reusable, Claimable, SlotOk, SlotsOk, HistOk, HistsOk, HistOf, Distinct, Busy, Listed, ListedOk, ThreadsOk, PcStage;
    assert QueueOk(s, q);
    if s.queues[q].job.Some? {
      var t := s.queues[q].job.value;
      assert Served(s, t, q);
      QueuedIsLive(s, t);
      if OfSlot(step) || OfThread(step) {
        LoopsLeaveJobs(s, step, t);
        JobKeepsStage(s, Apply(s, step), q);
      } else if OfDelivery(step) {
        DeliveryLeavesHand(s, step, q);
      } else if step.WorkerTakes? || step.WorkerSignals? {
        OtherWorkerLeavesHand(s, step, q);
      } else {
        JobLeavesHand(s, step, q);
      }
    } else if OfSlot(step) || OfThread(step) {
      LoopsLeaveQueues(s, step);
    } else {
      hide QueueOk, QueuesOk, ThreadOk;
    }
  }

  lemma LoopsLeaveQueues(s: State, step: Step)
    requires Enabled(s, step) && (OfSlot(step) || OfThread(step))
    ensures Apply(s, step).queues == s.queues
  {
    hide Reusable, Claimable;
  }

  lemma JobKeepsStage(s: State, s': State, q: nat)
    requires q < |s.queues| && s'.queues == s.queues && s.queues[q].job.Some?
    requires s.queues[q].job.value < |s.threads| && ThreadOk(s, s.queues[q].job.value)
    requires s.queues[q].job.value < |s'.threads|
    requires s'.threads[s.queues[q].job.value].stage == s.threads[s.queues[q].job.value].stage
    ensures NotBegun(s', s'.queues[q]) ==> NotBegun(s, s.queues[q])
  {
  }

  lemma ArrivalLeavesHand(s: State, step: Step, q: nat)
    requires Enabled(s, step) && (step.EnterDelivery? || step.Enqueue? || step.SetWake?)
    requires q < |s.queues| && s.queues[q].job.Some? && q < |Apply(s, step).queues|
    requires Served(s, s.queues[q].job.value, q) && ThreadOk(s, s.queues[q].job.value)
    ensures var k, k' := s.queues[q], Apply(s, step).queues[q];
      k'.settled == k.settled && k'.job == k.job && (NotBegun(Apply(s, step), k') ==> NotBegun(s, k))
  {
    hide ApplyToSlot, ApplyToThread, ApplyToWorker, Left;
  }

  lemma DepartureLeavesHand(s: State, step: Step, q: nat)
    requires Enabled(s, step) && (step.Awaited? || step.InlineDone? || step.LeaveDelivery?)
    requires q < |s.queues| && s.queues[q].job.Some? && q < |Apply(s, step).queues|
    requires Served(s, s.queues[q].job.value, q) && ThreadOk(s, s.queues[q].job.value)
    ensures var k, k' := s.queues[q], Apply(s, step).queues[q];
      k'.settled == k.settled && k'.job == k.job && (NotBegun(Apply(s, step), k') ==> NotBegun(s, k))
  {
    hide ApplyToSlot, ApplyToThread, ApplyToWorker, Entered, Enqueued;
  }

  lemma DeliveryLeavesHand(s: State, step: Step, q: nat)
    requires Enabled(s, step) && OfDelivery(step)
    requires q < |s.queues| && s.queues[q].job.Some? && q < |Apply(s, step).queues|
    requires Served(s, s.queues[q].job.value, q) && ThreadOk(s, s.queues[q].job.value)
    ensures var k, k' := s.queues[q], Apply(s, step).queues[q];
      k'.settled == k.settled && k'.job == k.job && (NotBegun(Apply(s, step), k') ==> NotBegun(s, k))
  {
    hide Apply, Enabled, NotBegun;
    if step.EnterDelivery? || step.Enqueue? || step.SetWake? {
      ArrivalLeavesHand(s, step, q);
    } else {
      DepartureLeavesHand(s, step, q);
    }
  }

  lemma OtherWorkerLeavesHand(s: State, step: Step, q: nat)
    requires Inv(s) && Enabled(s, step) && (step.WorkerTakes? || step.WorkerSignals?) && step.q != q
    requires q < |s.queues| && s.queues[q].job.Some? && q < |Apply(s, step).queues|
    requires Served(s, s.queues[q].job.value, q) && ThreadOk(s, s.queues[q].job.value)
    ensures var k, k' := s.queues[q], Apply(s, step).queues[q];
      k'.settled == k.settled && k'.job == k.job && (NotBegun(Apply(s, step), k') ==> NotBegun(s, k))
  {
    hide SlotOk, SlotsOk, HistOk, HistsOk, HistOf, Distinct, Busy, Listed, ListedOk, ThreadsOk;
    hide ApplyToSlot, ApplyToThread, ApplyToDelivery;
    assert QueueOk(s, step.q);
    if step.WorkerTakes? {
      assert Waits(s, s.queues[step.q].fifo[0], step.q);
    }
  }

  lemma JobLeavesHand(s: State, step: Step, q: nat)
    requires Enabled(s, step) && !OfSlot(step) && !OfThread(step) && !OfDelivery(step)
    requires !step.WorkerTakes? && !step.WorkerSignals?
    requires step.BeginCallback? ==> s.threads[step.t].queue != q
    requires q < |s.queues| && s.queues[q].job.Some? && q < |Apply(s, step).queues|
    requires Served(s, s.queues[q].job.value, q) && ThreadOk(s, s.queues[q].job.value)
    ensures var k, k' := s.queues[q], Apply(s, step).queues[q];
      k'.settled == k.settled && k'.job == k.job && (NotBegun(Apply(s, step), k') ==> NotBegun(s, k))
  {
    hide HistOf, ApplyToSlot, ApplyToThread, ApplyToDelivery;
  }

  lemma BeginIs(s: State, t: nat)
    requires Enabled(s, BeginCallback(t))
    ensures StageIs(s, t, Decided) && Apply(s, BeginCallback(t)) == Begins(s, t) && Begins(s, t).queues == s.queues
  {
  }

  lemma WorkerIs(s: State, q: nat, step: Step)
    requires Enabled(s, step)
    ensures step == WorkerTakes(q) ==> Apply(s, step) == Taken(s, q)
    ensures step == WorkerSignals(q) ==> Apply(s, step) == Signals(s, q)
  {
  }

  /** A queued job always has someone left to wake the worker. */
  lemma NoLostWakeup(serial: seq<bool>, steps: seq<Step>, q: nat)
    ensures var s := Reached(serial, steps); q < |s.queues| && s.queues[q].fifo != [] ==>
      || s.queues[q].wake || s.queues[q].awake
      || forall j :: 0 <= j < |s.queues[q].fifo| ==> At(s, s.queues[q].fifo[j], Waking)
  {
    hide Exec, SlotOk, SlotsOk, HistOk, HistsOk, Distinct, Busy, PcStage;
    ExecKeeps(serial, steps);
    var s := Reached(serial, steps);
    if q < |s.queues| {
      assert QueueOk(s, q);
      forall j | 0 <= j < |s.queues[q].fifo| ensures ThreadOk(s, s.queues[q].fifo[j]) {
        assert Waits(s, s.queues[q].fifo[j], q);
      }
    }
  }

  /** The steps that carry thread `t`'s queued job towards being settled. */
  predicate Advances(s: State, q: nat, step: Step) {
    match step
    case SetWake(t) => t < |s.threads| && s.threads[t].queue == q
    case WorkerWakes(p) => p == q
    case WorkerTakes(p) => p == q
    case WorkerSignals(p) => p == q
    case CheckJob(t) => t < |s.threads| && s.threads[t].queue == q
    case BeginCallback(t) => t < |s.threads| && s.threads[t].queue == q
    case EndCallback(t) => t < |s.threads| && s.threads[t].queue == q
    case _ => false
  }

  /** A thread waiting for its delivery is never stuck: it may return, or its queue may advance. */
  lemma WaiterIsNeverStuck(serial: seq<bool>, steps: seq<Step>, t: nat)
    ensures var s := Reached(serial, steps); At(s, t, Awaiting) ==>
      Enabled(s, Awaited(t)) || exists step :: Advances(s, s.threads[t].queue, step) && Enabled(s, step)
  {
    hide Exec;
    ExecKeeps(serial, steps);
    var s := Reached(serial, steps);
    if At(s, t, Awaiting) {
      var q := s.threads[t].queue;
      WaiterHasNext(s, t);
      var next := NextFor(s, q);
      if !s.threads[t].stage.Signalled? {
        assert Advances(s, q, next) && Enabled(s, next);
      }
    }
  }

  /** Who moves next on a queue that has work. */
  ghost function NextFor(s: State, q: nat): Step
    requires q < |s.queues|
  {
    var k := s.queues[q];
    if k.job.Some? then
      (if StageIs(s, k.job.value, Took) then CheckJob(k.job.value)
       else if StageIs(s, k.job.value, Decided) then BeginCallback(k.job.value)
       else if StageIs(s, k.job.value, Calling) then EndCallback(k.job.value)
       else WorkerSignals(q))
    else if k.awake then WorkerTakes(q)
    else if k.wake || k.fifo == [] then WorkerWakes(q)
    else SetWake(k.fifo[0])
  }

  lemma WaiterHasNext(s: State, t: nat)
    requires Inv(s) && At(s, t, Awaiting)
    ensures var q := s.threads[t].queue;
      s.threads[t].stage.Signalled? || (Advances(s, q, NextFor(s, q)) && Enabled(s, NextFor(s, q)))
  {
    hide SlotOk, SlotsOk, HistOk, HistsOk, Distinct, Busy;
    var q := s.threads[t].queue;
    var k := s.queues[q];
    assert ThreadOk(s, t) && Listed(s, t) && QueueOk(s, q);
    if k.job.Some? {
      assert Served(s, k.job.value, q);
      assert ThreadOk(s, k.job.value);
    } else if !s.threads[t].stage.Signalled? {
      assert t in k.fifo;
      assert Waits(s, k.fifo[0], q);
      assert ThreadOk(s, k.fifo[0]);
    }
  }

  predicate Holds(k: Queue, t: nat) { t in k.fifo || k.job == Some(t) }

  /** Outside its wait a thread's job is nowhere: the job lives on that thread's stack. */
  lemma NoJobOutlivesItsDelivery(serial: seq<bool>, steps: seq<Step>, t: nat, q: nat)
    ensures var s := Reached(serial, steps);
      q < |s.queues| && t < |s.threads| && !s.threads[t].pc.Waking? && !s.threads[t].pc.Awaiting? ==> !Holds(s.queues[q], t)
  {
    hide Exec;
    ExecKeeps(serial, steps);
    var s := Reached(serial, steps);
    if q < |s.queues| && Holds(s.queues[q], t) {
      HeldIsWaiting(s, t, q);
    }
  }

  lemma HeldIsWaiting(s: State, t: nat, q: nat)
    requires Inv(s) && q < |s.queues| && Holds(s.queues[q], t)
    ensures t < |s.threads| && (s.threads[t].pc.Waking? || s.threads[t].pc.Awaiting?) && Delivering(s.threads[t].pc)
  {
    hide SlotOk, SlotsOk, HistOk, HistsOk, Distinct, Busy;
    var k := s.queues[q];
    assert QueueOk(s, q);
    if t in k.fifo {
      var j :| 0 <= j < |k.fifo| && k.fifo[j] == t;
      assert Waits(s, k.fifo[j], q);
    }
    assert ThreadOk(s, t);
  }

  /** When nothing is counted in flight, nothing is queued, in hand or running. */
  lemma QuietMeansIdle(serial: seq<bool>, steps: seq<Step>, q: nat, t: nat)
    ensures var s := Reached(serial, steps); s.inflight == 0 && q < |s.queues| ==>
      s.queues[q].fifo == [] && s.queues[q].job.None? && !InCallback(s, t, q)
  {
    hide Exec, SlotOk, SlotsOk, HistOk, HistsOk, Distinct, Busy, QueueOk, QueuesOk, Listed, ListedOk;
    ExecKeeps(serial, steps);
    var s := Reached(serial, steps);
    if s.inflight == 0 && q < |s.queues| {
      var k := s.queues[q];
      if k.fifo != [] {
        HeldIsWaiting(s, k.fifo[0], q);
        BusyCounts(s.threads, k.fifo[0]);
      }
      if k.job.Some? {
        HeldIsWaiting(s, k.job.value, q);
        BusyCounts(s.threads, k.job.value);
      }
      if InCallback(s, t, q) {
        assert ThreadOk(s, t);
        BusyCounts(s.threads, t);
      }
    }
  }

  // ---- cancellation

  /** At most one cancel callback per incarnation, and no event callback open beside it. */
  ghost predicate CleanupIsLast(h: Hist) {
    && h.cxEnded <= h.cxStarted <= 1
    && h.evEnded <= h.evStarted <= h.evEnded + 1
    && (h.cxStarted == 1 ==> h.evStarted == h.evEnded)
  }

  lemma CancelRunsOnceAfterEvents(serial: seq<bool>, steps: seq<Step>, x: (nat, nat))
    ensures CleanupIsLast(HistOf(Reached(serial, steps), x))
  {
    hide Exec, ThreadOk, ThreadsOk, SlotOk, SlotsOk, Distinct, Busy, QueueOk, QueuesOk, Listed, ListedOk;
    ExecKeeps(serial, steps);
    var s := Reached(serial, steps);
    if x in s.hist {
      assert Owned(s, x);
    }
  }

  /** Once the cancel callback has begun, no event callback of that incarnation ever begins. */
  lemma NoEventAfterCancel(serial: seq<bool>, before: seq<Step>, after: seq<Step>, x: (nat, nat))
    requires HistOf(Reached(serial, before), x).cxStarted > 0
    ensures var h, h' := HistOf(Reached(serial, before), x), HistOf(Exec(Reached(serial, before), after), x);
      h'.evStarted == h.evStarted && h'.evEnded == h.evEnded && h'.cxStarted == 1
  {
    hide Inv, Apply, Enabled;
    ExecKeeps(serial, before);
    FrozenFrom(Reached(serial, before), after, x);
    CancelRunsOnceAfterEvents(serial, before, x);
  }

  ghost predicate SameCounts(h: Hist, h': Hist) {
    h'.evStarted == h.evStarted && h'.evEnded == h.evEnded && h'.cxStarted == h.cxStarted
  }

  lemma {:induction false} FrozenFrom(s: State, after: seq<Step>, x: (nat, nat))
    requires Inv(s) && HistOf(s, x).cxStarted > 0
    ensures Inv(Exec(s, after)) && SameCounts(HistOf(s, x), HistOf(Exec(s, after), x))
  {
    hide Inv, Apply, Enabled;
    if after != [] {
      var mid := Exec(s, after[..|after| - 1]);
      var step := after[|after| - 1];
      FrozenFrom(s, after[..|after| - 1], x);
      if Enabled(mid, step) {
        StepKeeps(mid, step);
        FrozenStep(mid, step, x);
      }
    }
  }

  lemma FrozenStep(s: State, step: Step, x: (nat, nat))
    requires Inv(s) && Enabled(s, step) && HistOf(s, x).cxStarted > 0
    ensures SameCounts(HistOf(s, x), HistOf(Apply(s, step), x))
  {
    hide SlotOk, SlotsOk, Busy, QueueOk, QueuesOk, Listed, ListedOk, Distinct;
    if !step.BeginCallback? && !step.EndCallback? {
      HistMovesOnlyInCallbacks(s, step);
    } else {
      var t := step.t;
      assert ThreadOk(s, t) && HistOk(HistOf(s, IdOf(s.threads[t])), s.threads[t]);
    }
  }

  lemma SlotKeepsHist(s: State, step: Step)
    requires Enabled(s, step) && OfSlot(step) && !step.BeginCallback? && !step.EndCallback?
    ensures Apply(s, step).hist == s.hist
  {
    hide Reusable, Claimable, Begun, Ended, HistOf, At, StageIs;
    hide ApplyToThread, ApplyToDelivery, ApplyToWorker;
  }

  lemma ThreadKeepsHist(s: State, step: Step)
    requires Enabled(s, step) && OfThread(step) && !step.BeginCallback? && !step.EndCallback?
    ensures Apply(s, step).hist == s.hist
  {
    hide Reusable, Claimable, Begun, Ended, HistOf, At, StageIs;
    hide ApplyToSlot, ApplyToDelivery, ApplyToWorker;
  }

  lemma DeliveryKeepsHist(s: State, step: Step)
    requires Enabled(s, step) && OfDelivery(step) && !step.BeginCallback? && !step.EndCallback?
    ensures Apply(s, step).hist == s.hist
  {
    hide Reusable, Claimable, Begun, Ended, HistOf, At, StageIs;
    hide ApplyToSlot, ApplyToThread, ApplyToWorker;
  }

  lemma WorkerKeepsHist(s: State, step: Step)
    requires Enabled(s, step) && !OfSlot(step) && !OfThread(step) && !OfDelivery(step) && !step.BeginCallback? && !step.EndCallback?
    ensures Apply(s, step).hist == s.hist
  {
    hide Reusable, Claimable, Begun, Ended, HistOf, At, StageIs;
    hide ApplyToSlot, ApplyToThread, ApplyToDelivery;
  }

  lemma HistMovesOnlyInCallbacks(s: State, step: Step)
    requires Enabled(s, step) && !step.BeginCallback? && !step.EndCallback?
    ensures Apply(s, step).hist == s.hist
  {
    hide Enabled, Apply;
    if OfSlot(step) { SlotKeepsHist(s, step); }
    else if OfThread(step) { ThreadKeepsHist(s, step); }
    else if OfDelivery(step) { DeliveryKeepsHist(s, step); }
    else { WorkerKeepsHist(s, step); }
  }

  /** A thread that leaves its loop always finds its source retired and not yet delivered. */
  lemma CloseAlwaysDelivers(serial: seq<bool>, steps: seq<Step>, t: nat)
    ensures var s := Reached(serial, steps); Enabled(s, Close(t)) ==>
      s.slots[s.threads[t].slot].retired && !s.slots[s.threads[t].slot].delivered
  {
    hide Exec, SlotOk, SlotsOk, HistOk, HistsOk, Distinct, Busy, QueueOk, QueuesOk, Listed, ListedOk;
    ExecKeeps(serial, steps);
    var s := Reached(serial, steps);
    if Enabled(s, Close(t)) {
      assert ThreadOk(s, t);
    }
  }

  // ---- slot reuse

  /** A slot that may be claimed is held by no live thread. */
  lemma ReusableSlotIsUnheld(serial: seq<bool>, steps: seq<Step>, i: nat, t: nat)
    ensures var s := Reached(serial, steps);
      i < |s.slots| && Reusable(s, i) && t < |s.threads| && s.threads[t].slot == i ==> s.threads[t].pc.Exited?
  {
    hide Exec, Inv;
    ExecKeeps(serial, steps);
    var s := Reached(serial, steps);
    if i < |s.slots| && Reusable(s, i) && t < |s.threads| && s.threads[t].slot == i {
      ReusableIsQuiet(s, i, t);
    }
  }

  /** A live thread always holds the incarnation it was started for, and is its only thread. */
  lemma LiveThreadHoldsItsIncarnation(serial: seq<bool>, steps: seq<Step>, t: nat, u: nat)
    ensures var s := Reached(serial, steps); t < |s.threads| && !s.threads[t].pc.Exited? ==>
      && s.threads[t].slot < |s.slots| && s.slots[s.threads[t].slot].inc == s.threads[t].inc
      && (u < |s.threads| && u != t && s.threads[u].slot == s.threads[t].slot ==>
            s.threads[u].inc < s.threads[t].inc && s.threads[u].pc.Exited?)
  {
    hide Exec, SlotOk, SlotsOk, HistOk, HistsOk, Busy, QueueOk, QueuesOk, Listed, ListedOk;
    ExecKeeps(serial, steps);
    var s := Reached(serial, steps);
    if t < |s.threads| && !s.threads[t].pc.Exited? {
      assert ThreadOk(s, t);
      if u < |s.threads| && u != t {
        assert ThreadOk(s, u);
        assert IdOf(s.threads[u]) != IdOf(s.threads[t]);
      }
    }
  }

  ghost predicate Claimed(s: State, i: nat) {
    i < |s.slots| && !s.slots[i].retired && !(s.lock.Cancelling? && s.lock.slot == i)
  }

  /** A claimed slot keeps its claim until it is cancelled. */
  lemma {:induction false} ClaimStays(s: State, after: seq<Step>, i: nat)
    requires Claimed(s, i) && CancelLock(i) !in after
    ensures Claimed(Exec(s, after), i) && Exec(s, after).slots[i].inc == s.slots[i].inc
  {
    hide Apply, Enabled;
    if after != [] {
      var front := after[..|after| - 1];
      var step := after[|after| - 1];
      assert forall x :: x in front ==> x in after;
      ClaimStays(s, front, i);
      if Enabled(Exec(s, front), step) {
        assert step in after;
        ClaimStep(Exec(s, front), step, i);
      }
    }
  }

  lemma SlotKeepsClaim(s: State, step: Step, i: nat)
    requires Claimed(s, i) && Enabled(s, step) && OfSlot(step) && step != CancelLock(i)
    ensures Claimed(Apply(s, step), i) && Apply(s, step).slots[i].inc == s.slots[i].inc
  {
    hide HistOf, Begun, Ended;
    hide ApplyToThread, ApplyToDelivery, ApplyToWorker;
  }

  lemma ThreadKeepsClaim(s: State, step: Step, i: nat)
    requires Claimed(s, i) && Enabled(s, step) && OfThread(step) && step != CancelLock(i)
    ensures Claimed(Apply(s, step), i) && Apply(s, step).slots[i].inc == s.slots[i].inc
  {
    hide HistOf, Begun, Ended;
    hide ApplyToSlot, ApplyToDelivery, ApplyToWorker;
  }

  lemma DeliveryKeepsClaim(s: State, step: Step, i: nat)
    requires Claimed(s, i) && Enabled(s, step) && OfDelivery(step) && step != CancelLock(i)
    ensures Claimed(Apply(s, step), i) && Apply(s, step).slots[i].inc == s.slots[i].inc
  {
    hide HistOf, Begun, Ended;
    hide ApplyToSlot, ApplyToThread, ApplyToWorker;
  }

  lemma WorkerKeepsClaim(s: State, step: Step, i: nat)
    requires Claimed(s, i) && Enabled(s, step) && !OfSlot(step) && !OfThread(step) && !OfDelivery(step) && step != CancelLock(i)
    ensures Claimed(Apply(s, step), i) && Apply(s, step).slots[i].inc == s.slots[i].inc
  {
    hide HistOf, Begun, Ended;
    hide ApplyToSlot, ApplyToThread, ApplyToDelivery;
  }

  lemma ClaimStep(s: State, step: Step, i: nat)
    requires Claimed(s, i) && Enabled(s, step) && step != CancelLock(i)
    ensures Claimed(Apply(s, step), i) && Apply(s, step).slots[i].inc == s.slots[i].inc
  {
    hide Enabled, Apply;
    if OfSlot(step) { SlotKeepsClaim(s, step, i); }
    else if OfThread(step) { ThreadKeepsClaim(s, step, i); }
    else if OfDelivery(step) { DeliveryKeepsClaim(s, step, i); }
    else { WorkerKeepsClaim(s, step, i); }
  }

  predicate Claims(s: State, claim: Step, i: nat) {
    (claim.ReuseSlot? && claim.i == i) || (claim.NewSlot? && i == |s.slots|)
  }

  /** Of two creators only one gets a slot: once it is claimed nobody else can claim it, in any
      continuation, until it is cancelled. */
  lemma ClaimIsExclusive(s: State, claim: Step, i: nat, after: seq<Step>, q: nat)
    requires Enabled(s, claim) && Claims(s, claim, i) && CancelLock(i) !in after
    ensures var s' := Exec(Apply(s, claim), after);
      && i < |Apply(s, claim).slots| && !Enabled(s', ReuseSlot(i, q))
      && i < |s'.slots| && s'.slots[i].inc == Apply(s, claim).slots[i].inc
  {
    hide Exec;
    assert Claimed(Apply(s, claim), i);
    ClaimStays(Apply(s, claim), after, i);
  }
}
