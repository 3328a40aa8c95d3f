/** Every enabled step of the source protocol keeps the invariant. */
module SourceSteps {
  import opened Sources
  import opened SourceInvariants

  /** A thread outside its delivery: no job, so nothing the queues see. */
  lemma LoopStepKeeps(s: State, t: nat, step: Step)
    requires Inv(s) && Enabled(s, step) && step in {StartWait(t), TimeOut(t)}
    ensures Inv(Apply(s, step))
  {
    hide SlotOk, QueueOk, Listed, Busy, SlotsOk, QueuesOk, ListedOk, Distinct, HistOf;
    var s' := Apply(s, step);
    assert ThreadOk(s, t);
    assert ThreadOk(s', t);
    MoveKeeps(s, s', t);
  }

  lemma RearmKeeps(s: State, t: nat, step: Step)
    requires Inv(s) && Enabled(s, step) && step == TakeRearm(t)
    ensures Inv(Apply(s, step))
  {
    hide SlotOk, QueueOk, Listed, Busy, SlotsOk, QueuesOk, ListedOk, Distinct, HistOf;
    var s' := Apply(s, step);
    assert ThreadOk(s, t);
    assert ThreadOk(s', t);
    MoveKeeps(s, s', t);
  }

  lemma FireKeeps(s: State, t: nat, step: Step)
    requires Inv(s) && Enabled(s, step) && step in {FireNow(t), Fire(t)}
    ensures Inv(Apply(s, step))
  {
    hide SlotOk, QueueOk, Listed, Busy, SlotsOk, QueuesOk, ListedOk, Distinct, HistOf;
    var s' := Apply(s, step);
    assert ThreadOk(s, t);
    assert ThreadOk(s', t);
    MoveKeeps(s, s', t);
  }

  /** A thread that finds `running` off was cancelled: nothing else turns it off. */
  lemma TestKeeps(s: State, t: nat, step: Step)
    requires Inv(s) && Enabled(s, step) && step in {TestRunning(t), AfterWait(t)}
    ensures Inv(Apply(s, step))
  {
    hide QueueOk, Listed, Busy, QueuesOk, ListedOk, Distinct, HistOf;
    var s' := Apply(s, step);
    assert ThreadOk(s, t);
    assert SlotOk(s, s.threads[t].slot);
    assert ThreadOk(s', t);
    MoveKeeps(s, s', t);
  }

  lemma CloseKeeps(s: State, t: nat)
    requires Inv(s) && Enabled(s, Close(t))
    ensures Inv(Apply(s, Close(t)))
  {
    hide SlotOk, QueueOk, Listed, Busy, SlotsOk, QueuesOk, ListedOk, Distinct, HistOf;
    var s' := Apply(s, Close(t));
    assert ThreadOk(s, t);
    assert ThreadOk(s', t);
    MoveKeeps(s, s', t);
  }

  lemma JobStepKeeps(s: State, t: nat, step: Step)
    requires Inv(s) && Enabled(s, step) && step in {EnterDelivery(t), CheckJob(t)}
    ensures Inv(Apply(s, step))
  {
    hide SlotOk, QueueOk, Listed, Busy, SlotsOk, QueuesOk, ListedOk, Distinct, HistOf;
    var s' := Apply(s, step);
    assert ThreadOk(s, t);
    assert ThreadOk(s', t);
    MoveKeeps(s, s', t);
  }

  lemma ReturnKeeps(s: State, t: nat, step: Step)
    requires Inv(s) && Enabled(s, step) && step in {Awaited(t), InlineDone(t)}
    ensures Inv(Apply(s, step))
  {
    hide SlotOk, QueueOk, Listed, Busy, SlotsOk, QueuesOk, ListedOk, Distinct, HistOf;
    var s' := Apply(s, step);
    assert ThreadOk(s, t);
    assert ThreadOk(s', t);
    MoveKeeps(s, s', t);
  }

  lemma {:induction false} BusyCounts(ts: seq<Thread>, t: nat)
    requires t < |ts| && Delivering(ts[t].pc)
    ensures Busy(ts) > 0
  {
    if t < |ts| - 1 {
      BusyCounts(ts[..|ts| - 1], t);
    }
  }

  lemma LeaveKeeps(s: State, t: nat, again: bool)
    requires Inv(s) && Enabled(s, LeaveDelivery(t, again))
    ensures Inv(Apply(s, LeaveDelivery(t, again)))
  {
    hide SlotOk, QueueOk, Listed, Busy, SlotsOk, QueuesOk, ListedOk, Distinct, HistOf;
    var s' := Apply(s, LeaveDelivery(t, again));
    BusyCounts(s.threads, t);
    assert ThreadOk(s, t);
    assert ThreadOk(s', t);
    MoveKeeps(s, s', t);
  }

  lemma CallbackKeeps(s: State, t: nat, step: Step)
    requires Inv(s) && Enabled(s, step) && step in {BeginCallback(t), EndCallback(t)}
    ensures Inv(Apply(s, step))
  {
    hide ApplyToSlot, ApplyToThread, ApplyToDelivery;
    hide SlotOk, QueueOk, Listed, Busy, SlotsOk, QueuesOk, ListedOk, Distinct;
    var s' := Apply(s, step);
    assert ThreadOk(s, t);
    assert ThreadOk(s', t);
    MoveKeepsThreads(s, s', t);
    MoveKeepsQueues(s, s', t);
    MoveKeepsHists(s, s', t);
    BusyUpdate(s.threads, t, s'.threads[t]);
  }

  // ---- steps that touch a queue

  lemma EnqueueKeeps(s: State, t: nat)
    requires Inv(s) && Enabled(s, Enqueue(t))
    ensures Inv(Apply(s, Enqueue(t)))
  {
    hide SlotOk, Busy, SlotsOk, Distinct, QueueOk, Listed, ListedOk;
    var s' := Apply(s, Enqueue(t));
    assert ThreadOk(s, t);
    assert ThreadOk(s', t);
    MoveKeepsThreads(s, s', t);
    MoveKeepsHists(s, s', t);
    BusyUpdate(s.threads, t, s'.threads[t]);
    forall q | 0 <= q < |s.queues| ensures QueueOk(s', q) {
      EnqueueKeepsQueue(s, t, q);
    }
    EnqueueKeepsListed(s, t);
  }

  lemma EnqueueKeepsQueue(s: State, t: nat, q: nat)
    requires Inv(s) && At(s, t, Queueing) && q < |s.queues|
    ensures QueueOk(Enqueued(s, t), q)
  {
    hide SlotOk, Busy, SlotsOk, Distinct, HistOk, HistsOk, ListedOk, Listed;
    assert ThreadOk(s, t);
    assert QueueOk(s, q);
  }

  lemma EnqueueKeepsListed(s: State, t: nat)
    requires Inv(s) && At(s, t, Queueing)
    ensures ListedOk(Enqueued(s, t))
  {
    hide SlotOk, Busy, SlotsOk, Distinct, HistOk, HistsOk, QueuesOk, QueueOk, PcStage;
    var s' := Enqueued(s, t);
    forall u | 0 <= u < |s.threads| ensures Listed(s', u) {
      assert Listed(s, u);
      var k, k' := s.queues[s.threads[u].queue], s'.queues[s.threads[u].queue];
      assert u in k.fifo ==> u in k'.fifo;
      assert u == t ==> k'.fifo[|k.fifo|] == t;
    }
  }

  lemma SetWakeKeeps(s: State, t: nat)
    requires Inv(s) && Enabled(s, SetWake(t))
    ensures Inv(Apply(s, SetWake(t)))
  {
    hide SlotOk, Busy, SlotsOk, Distinct, QueueOk, QueuesOk, Listed, ListedOk;
    var s' := Apply(s, SetWake(t));
    assert ThreadOk(s, t);
    assert ThreadOk(s', t);
    MoveKeepsThreads(s, s', t);
    MoveKeepsHists(s, s', t);
    BusyUpdate(s.threads, t, s'.threads[t]);
    SetWakeKeepsQueues(s, t);
  }

  lemma SetWakeKeepsQueues(s: State, t: nat)
    requires Inv(s) && Enabled(s, SetWake(t))
    ensures QueuesOk(Apply(s, SetWake(t))) && ListedOk(Apply(s, SetWake(t)))
  {
    hide SlotOk, Busy, SlotsOk, Distinct, HistOk, HistsOk;
    var s' := Apply(s, SetWake(t));
    assert ThreadOk(s, t);
    forall q | 0 <= q < |s.queues| ensures QueueOk(s', q) {
      assert QueueOk(s, q);
    }
    forall u | 0 <= u < |s.threads| ensures Listed(s', u) {
      assert Listed(s, u);
    }
  }

  /** Only the worker's own flags change. */
  lemma WorkerFlagKeeps(s: State, q: nat, step: Step)
    requires Inv(s) && Enabled(s, step) && step in {WorkerWakes(q), WorkerSleeps(q)}
    ensures Inv(Apply(s, step))
  {
    hide Busy, HistOk, PcStage;
    var s' := Apply(s, step);
    forall p | 0 <= p < |s.queues| ensures QueueOk(s', p) {
      assert QueueOk(s, p);
    }
    forall u | 0 <= u < |s.threads| ensures Listed(s', u) && ThreadOk(s', u) {
      assert Listed(s, u);
      assert ThreadOk(s, u);
    }
    forall i | 0 <= i < |s.slots| ensures SlotOk(s', i) {
      assert SlotOk(s, i);
    }
  }

  /** A waiting or served thread is in its delivery, so its incarnation is the current one. */
  lemma QueuedIsLive(s: State, t: nat)
    requires Inv(s) && t < |s.threads| && !s.threads[t].stage.Idle?
    ensures ThreadOk(s, t) && !s.threads[t].pc.Exited? && s.threads[t].inc == s.slots[s.threads[t].slot].inc
  {
    hide SlotOk, Busy, SlotsOk, Distinct, HistOk, HistsOk, QueueOk, Listed;
    assert ThreadOk(s, t);
  }

  lemma WorkerTakesKeeps(s: State, q: nat)
    requires Inv(s) && Enabled(s, WorkerTakes(q))
    ensures Inv(Apply(s, WorkerTakes(q)))
  {
    hide SlotOk, Busy, SlotsOk, Distinct, Listed, ListedOk;
    var s' := Apply(s, WorkerTakes(q));
    var t := s.queues[q].fifo[0];
    assert QueueOk(s, q) && Waits(s, t, q);
    QueuedIsLive(s, t);
    assert ThreadOk(s', t);
    MoveKeepsThreads(s, s', t);
    MoveKeepsHists(s, s', t);
    BusyUpdate(s.threads, t, s'.threads[t]);
    forall p | 0 <= p < |s.queues| ensures QueueOk(s', p) {
      TakeKeepsQueue(s, q, p);
    }
    TakeKeepsListed(s, q);
  }

  lemma TakeKeepsQueue(s: State, q: nat, p: nat)
    requires Inv(s) && Enabled(s, WorkerTakes(q)) && p < |s.queues|
    ensures QueueOk(Taken(s, q), p)
  {
    hide SlotOk, Busy, SlotsOk, Distinct, HistOk, HistsOk, Listed, ListedOk;
    var k, k' := s.queues[q], Taken(s, q).queues[q];
    var t := k.fifo[0];
    assert QueueOk(s, q) && Waits(s, t, q);
    QueuedIsLive(s, t);
    assert ThreadOk(s, t);
    assert QueueOk(s, p);
    assert k.fifo == [t] + k'.fifo;
  }

  lemma TakeKeepsListed(s: State, q: nat)
    requires Inv(s) && Enabled(s, WorkerTakes(q))
    ensures ListedOk(Taken(s, q))
  {
    hide SlotOk, Busy, SlotsOk, Distinct, HistOk, HistsOk, QueuesOk, QueueOk;
    var s' := Taken(s, q);
    var k, k' := s.queues[q], s'.queues[q];
    var t := k.fifo[0];
    TakenJob(s, q);
    assert k.fifo == [t] + k'.fifo;
    forall u | 0 <= u < |s.threads| ensures Listed(s', u) {
      assert Listed(s, u);
      if u != t && s.threads[u].stage.InQueue? && s.threads[u].queue == q {
        assert u in [t] + k'.fifo;
      }
    }
  }

  lemma TakenJob(s: State, q: nat)
    requires Inv(s) && Enabled(s, WorkerTakes(q))
    ensures Waits(s, s.queues[q].fifo[0], q)
  {
    assert QueueOk(s, q);
  }

  lemma WorkerSignalsKeeps(s: State, q: nat)
    requires Inv(s) && Enabled(s, WorkerSignals(q))
    ensures Inv(Apply(s, WorkerSignals(q)))
  {
    hide SlotOk, Busy, SlotsOk, Distinct, Listed, ListedOk;
    var s' := Apply(s, WorkerSignals(q));
    var t := s.queues[q].job.value;
    assert QueueOk(s, q) && Served(s, t, q);
    QueuedIsLive(s, t);
    assert ThreadOk(s', t);
    MoveKeepsThreads(s, s', t);
    MoveKeepsHists(s, s', t);
    BusyUpdate(s.threads, t, s'.threads[t]);
    SignalKeepsQueues(s, q);
  }

  lemma SignalKeepsQueues(s: State, q: nat)
    requires Inv(s) && Enabled(s, WorkerSignals(q))
    ensures QueuesOk(Apply(s, WorkerSignals(q))) && ListedOk(Apply(s, WorkerSignals(q)))
  {
    hide SlotOk, Busy, SlotsOk, Distinct, HistOk, HistsOk;
    var s' := Apply(s, WorkerSignals(q));
    assert QueueOk(s, q);
    forall p | 0 <= p < |s.queues| ensures QueueOk(s', p) {
      assert QueueOk(s, p);
    }
    forall u | 0 <= u < |s.threads| ensures Listed(s', u) {
      assert Listed(s, u);
    }
  }

  // ---- all of them

  lemma StepKeeps(s: State, step: Step)
    requires Inv(s) && Enabled(s, step)
    ensures Inv(Apply(s, step))
  {
    hide Inv, Apply, Enabled;
    match step
    case NewSlot(q) => NewSlotKeeps(s, q);
    case ReuseSlot(i, q) => ReuseSlotKeeps(s, i, q);
    case SetHandlers(i, _, _) => DressingStepKeeps(s, i, step);
    case SetTimer(i, _) => DressingStepKeeps(s, i, step);
    case ResumeLock(i) => ResumeLockKeeps(s, i);
    case Spawn(i) => SpawnKeeps(s, i);
    case Publish(i) => PublishKeeps(s, i);
    case CancelLock(_) => CancelKeeps(s, step);
    case CancelWrite => CancelKeeps(s, step);
    case CancelUnlock => CancelKeeps(s, step);
    case TestRunning(t) => TestKeeps(s, t, step);
    case FireNow(t) => FireKeeps(s, t, step);
    case StartWait(t) => LoopStepKeeps(s, t, step);
    case TimeOut(t) => LoopStepKeeps(s, t, step);
    case TakeRearm(t) => RearmKeeps(s, t, step);
    case AfterWait(t) => TestKeeps(s, t, step);
    case Fire(t) => FireKeeps(s, t, step);
    case EnterDelivery(t) => JobStepKeeps(s, t, step);
    case Enqueue(t) => EnqueueKeeps(s, t);
    case SetWake(t) => SetWakeKeeps(s, t);
    case Awaited(t) => ReturnKeeps(s, t, step);
    case LeaveDelivery(t, again) => LeaveKeeps(s, t, again);
    case Close(t) => CloseKeeps(s, t);
    case WorkerWakes(q) => WorkerFlagKeeps(s, q, step);
    case WorkerTakes(q) => WorkerTakesKeeps(s, q);
    case WorkerSleeps(q) => WorkerFlagKeeps(s, q, step);
    case WorkerSignals(q) => WorkerSignalsKeeps(s, q);
    case CheckJob(t) => JobStepKeeps(s, t, step);
    case BeginCallback(t) => CallbackKeeps(s, t, step);
    case EndCallback(t) => CallbackKeeps(s, t, step);
    case InlineDone(t) => ReturnKeeps(s, t, step);
  }

  lemma DressingStepKeeps(s: State, i: nat, step: Step)
    requires Inv(s) && Enabled(s, step)
    requires (step.SetHandlers? || step.SetTimer?) && step.i == i
    ensures Inv(Apply(s, step))
  {
    hide Inv;
    DressingKeeps(s, Apply(s, step), i);
  }

  /** Every reachable state satisfies the invariant. */
  lemma {:induction false} ExecKeeps(serial: seq<bool>, steps: seq<Step>)
    ensures Inv(Exec(Init(serial), steps))
  {
    hide Inv, Apply, Enabled;
    if steps == [] {
      InitKeeps(serial);
    } else {
      var before := Exec(Init(serial), steps[..|steps| - 1]);
      ExecKeeps(serial, steps[..|steps| - 1]);
      if Enabled(before, steps[|steps| - 1]) {
        StepKeeps(before, steps[|steps| - 1]);
      }
    }
  }

  lemma InitKeeps(serial: seq<bool>)
    ensures Inv(Init(serial))
  {
  }
}
