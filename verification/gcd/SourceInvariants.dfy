/** What every step of the source protocol keeps. */
module SourceInvariants {
  import opened Wrappers
  import opened Sources

  /** A slot nobody will run again: cancelled, or in the middle of being cancelled. */
  ghost predicate Stopped(s: State, i: nat)
    requires i < |s.slots|
  {
    && !s.slots[i].running
    && (s.slots[i].retired || (s.lock.Cancelling? && s.lock.slot == i && s.lock.done >= 1))
  }

  predicate InService(stage: Stage) { stage.Took? || stage.Decided? || stage.Calling? || stage.Ran? }

  predicate Delivering(pc: Pc) {
    pc.Queueing? || pc.Waking? || pc.Awaiting? || pc.Inline? || pc.Leave?
  }

  /** Program counter, job stage and kind of queue agree. */
  ghost predicate PcStage(th: Thread, serial: bool) {
    && (th.pc.Waking? || th.pc.Awaiting? ==> serial && !th.stage.Idle?)
    && (th.pc.Inline? ==> !serial && InService(th.stage))
    && (th.pc.Queueing? ==> serial)
    && (!th.pc.Waking? && !th.pc.Awaiting? && !th.pc.Inline? ==> th.stage.Idle?)
    && (th.cleanup ==> th.pc.Enter? || Delivering(th.pc) || th.pc.Exited?)
    && (th.cleanup || th.pc.Exited? ==> th.saw)
  }

  ghost predicate ThreadOk(s: State, t: nat)
    requires t < |s.threads|
  {
    var th := s.threads[t];
    && th.slot < |s.slots| && th.queue < |s.queues|
    && th.inc <= s.slots[th.slot].inc
    && PcStage(th, s.queues[th.queue].serial)
    && (!th.pc.Exited? ==> th.inc == s.slots[th.slot].inc && th.queue == s.slots[th.slot].queue)
    && (th.inc == s.slots[th.slot].inc ==> Current(s, t))
  }

  /** What holds of the thread of a slot's latest incarnation. */
  ghost predicate Current(s: State, t: nat)
    requires t < |s.threads| && s.threads[t].slot < |s.slots|
  {
    var th := s.threads[t];
    var c := s.slots[th.slot];
    && (c.thread == Some(t) || c.pending == Some(t))
    && (th.cleanup || th.pc.Closing? || th.pc.Exited? ==> Stopped(s, th.slot))
    && (c.delivered <==> th.cleanup || th.pc.Exited?)
  }

  ghost predicate Names(s: State, o: Option<nat>, i: nat)
    requires i < |s.slots|
  {
    o.Some? ==> o.value < |s.threads| && IdOf(s.threads[o.value]) == (i, s.slots[i].inc)
  }

  ghost predicate SlotOk(s: State, i: nat)
    requires i < |s.slots|
  {
    var c := s.slots[i];
    && c.queue < |s.queues|
    && Names(s, c.thread, i) && Names(s, c.pending, i)
    && (c.pending.Some? ==> c.starting)
    && (c.starting ==> c.thread.None?)
    && (c.thread.Some? || c.starting ==> c.running || Stopped(s, i))
    && (c.running ==> c.thread.Some? || c.starting)
    && (c.retired ==> !c.running)
    && (c.delivered ==> c.thread.Some? || c.pending.Some?)
  }

  ghost predicate LockOk(s: State) {
    s.lock.Cancelling? ==>
      && s.lock.slot < |s.slots| && s.lock.done <= 3
      && (s.lock.done >= 1 ==> !s.slots[s.lock.slot].running)
      && (s.lock.done >= 3 ==> s.slots[s.lock.slot].retired)
  }

  /** One serial queue: what is waiting, what the worker holds, what was ever enqueued. */
  ghost predicate QueueOk(s: State, q: nat)
    requires q < |s.queues|
  {
    var k := s.queues[q];
    && (forall j :: 0 <= j < |k.fifo| ==> Waits(s, k.fifo[j], q))
    && (forall i, j :: 0 <= i < j < |k.fifo| ==> k.fifo[i] != k.fifo[j])
    && (k.job.Some? ==> k.awake && Served(s, k.job.value, q))
    && (!k.wake && !k.awake ==> forall j :: 0 <= j < |k.fifo| ==> s.threads[k.fifo[j]].pc.Waking?)
    && k.enqueued == k.settled + InHand(k) + k.fifo
  }

  function InHand(k: Queue): seq<nat> { if k.job.Some? then [k.job.value] else [] }

  ghost predicate Waits(s: State, t: nat, q: nat) {
    t < |s.threads| && s.threads[t].queue == q && s.threads[t].stage.InQueue?
  }

  ghost predicate Served(s: State, t: nat, q: nat) {
    t < |s.threads| && s.threads[t].queue == q && InService(s.threads[t].stage) && !s.threads[t].pc.Inline?
  }

  /** The queue's side of a thread that waits or is being served. */
  ghost predicate Listed(s: State, t: nat)
    requires t < |s.threads| && s.threads[t].queue < |s.queues|
  {
    var k := s.queues[s.threads[t].queue];
    && (s.threads[t].stage.InQueue? ==> t in k.fifo)
    && (Served(s, t, s.threads[t].queue) ==> k.job == Some(t))
  }

  /** A thread's position fixes how many callbacks its incarnation has begun and finished. */
  ghost predicate HistOk(h: Hist, th: Thread) {
    && h.evStarted == h.evEnded + (if th.stage.Calling? && !th.cleanup then 1 else 0)
    && h.cxStarted == (if th.cleanup && CleanupBegun(th) then 1 else 0)
    && h.cxStarted == h.cxEnded + (if th.stage.Calling? && th.cleanup then 1 else 0)
    && (th.cleanup && th.stage.Ran? ==> CleanupBegun(th))
  }

  predicate CleanupBegun(th: Thread) {
    th.stage.Calling? || th.stage.Ran? || th.stage.Signalled? || th.pc.Leave? || th.pc.Exited?
  }

  ghost predicate Owned(s: State, x: (nat, nat)) {
    exists t :: 0 <= t < |s.threads| && IdOf(s.threads[t]) == x
  }

  ghost predicate ThreadsOk(s: State) {
    forall t :: 0 <= t < |s.threads| ==> ThreadOk(s, t)
  }

  ghost predicate SlotsOk(s: State) {
    forall i :: 0 <= i < |s.slots| ==> SlotOk(s, i)
  }

  ghost predicate QueuesOk(s: State) {
    forall q :: 0 <= q < |s.queues| ==> QueueOk(s, q)
  }

  ghost predicate ListedOk(s: State) {
    forall t :: 0 <= t < |s.threads| ==> s.threads[t].queue < |s.queues| && Listed(s, t)
  }

  ghost predicate HistsOk(s: State) {
    && (forall t :: 0 <= t < |s.threads| ==> HistOk(HistOf(s, IdOf(s.threads[t])), s.threads[t]))
    && (forall x :: x in s.hist ==> Owned(s, x))
  }

  ghost predicate Distinct(s: State) {
    forall t, u :: 0 <= t < u < |s.threads| ==> IdOf(s.threads[t]) != IdOf(s.threads[u])
  }

  function Busy(ts: seq<Thread>): nat {
    if ts == [] then 0 else Busy(ts[..|ts| - 1]) + if Delivering(ts[|ts| - 1].pc) then 1 else 0
  }

  ghost predicate Inv(s: State) {
    && LockOk(s) && ThreadsOk(s) && SlotsOk(s) && QueuesOk(s) && ListedOk(s) && HistsOk(s) && Distinct(s)
    && s.inflight == Busy(s.threads)
  }

  // ---- counting

  lemma {:induction false} BusyUpdate(ts: seq<Thread>, t: nat, th: Thread)
    requires t < |ts|
    ensures Busy(ts[t := th]) + (if Delivering(ts[t].pc) then 1 else 0) == Busy(ts) + (if Delivering(th.pc) then 1 else 0)
  {
    var n := |ts| - 1;
    if t == n {
      assert ts[t := th][..n] == ts[..n];
    } else {
      assert ts[t := th][..n] == ts[..n][t := th];
      BusyUpdate(ts[..n], t, th);
    }
  }

  // ---- steps that touch one slot and no thread

  ghost predicate SlotStep(s: State, s': State, i: nat) {
    && s'.threads == s.threads && s'.queues == s.queues && s'.hist == s.hist && s'.inflight == s.inflight
    && i < |s.slots| && |s'.slots| == |s.slots|
    && (forall j :: 0 <= j < |s.slots| && j != i ==> s'.slots[j] == s.slots[j])
    && (forall j :: 0 <= j < |s.slots| && j != i ==> (Stopped(s, j) ==> Stopped(s', j)))
  }

  lemma SlotStepKeeps(s: State, s': State, i: nat)
    requires Inv(s) && SlotStep(s, s', i)
    requires LockOk(s') && SlotOk(s', i)
    requires forall t :: 0 <= t < |s.threads| && s.threads[t].slot == i ==> ThreadOk(s', t)
    ensures Inv(s')
  {
    hide PcStage, HistOk;
    assert ThreadsOk(s') by {
      forall t | 0 <= t < |s.threads| ensures ThreadOk(s', t) {
        assert ThreadOk(s, t);
      }
    }
    assert SlotsOk(s') by {
      forall j | 0 <= j < |s.slots| ensures SlotOk(s', j) {
        assert SlotOk(s, j);
      }
    }
    assert QueuesOk(s') by {
      forall q | 0 <= q < |s.queues| ensures QueueOk(s', q) {
        assert QueueOk(s, q);
      }
    }
    assert ListedOk(s') by {
      forall t | 0 <= t < |s.threads| ensures Listed(s', t) {
        assert Listed(s, t);
      }
    }
  }

  /** Fields no thread's obligations depend on may change freely. */
  ghost predicate SameLife(a: Slot, b: Slot) {
    && a.inc == b.inc && a.queue == b.queue && a.running == b.running && a.starting == b.starting
    && a.pending == b.pending && a.thread == b.thread && a.retired == b.retired && a.delivered == b.delivered
  }

  lemma DressingKeeps(s: State, s': State, i: nat)
    requires Inv(s) && i < |s.slots| && |s'.slots| == |s.slots|
    requires s' == WithSlot(s, i, s'.slots[i]) && SameLife(s.slots[i], s'.slots[i])
    ensures Inv(s')
  {
    hide HistOk, HistsOk, QueueOk, Listed, PcStage;
    assert SlotOk(s, i);
    forall t | 0 <= t < |s.threads| && s.threads[t].slot == i ensures ThreadOk(s', t) {
      assert ThreadOk(s, t);
    }
    SlotStepKeeps(s, s', i);
  }

  lemma NewSlotKeeps(s: State, q: nat)
    requires Inv(s) && Enabled(s, NewSlot(q))
    ensures Inv(Apply(s, NewSlot(q)))
  {
    hide HistOk, PcStage;
    var s' := Apply(s, NewSlot(q));
    assert ThreadsOk(s') by {
      forall t | 0 <= t < |s.threads| ensures ThreadOk(s', t) {
        assert ThreadOk(s, t);
      }
    }
    assert SlotsOk(s') by {
      forall j | 0 <= j < |s'.slots| ensures SlotOk(s', j) {
        if j < |s.slots| { assert SlotOk(s, j); }
      }
    }
    assert QueuesOk(s') by {
      forall p | 0 <= p < |s.queues| ensures QueueOk(s', p) {
        assert QueueOk(s, p);
      }
    }
    assert ListedOk(s') by {
      forall t | 0 <= t < |s.threads| ensures Listed(s', t) {
        assert Listed(s, t);
      }
    }
  }

  /** A reusable slot's last thread has exited, so no live thread holds it. */
  lemma ReusableIsQuiet(s: State, i: nat, t: nat)
    requires Inv(s) && i < |s.slots| && Reusable(s, i)
    requires t < |s.threads| && s.threads[t].slot == i
    ensures s.threads[t].pc.Exited?
  {
    hide HistOk, HistsOk, QueueOk, Listed, PcStage, Busy;
    assert ThreadOk(s, t);
    assert SlotOk(s, i);
  }

  lemma ReuseSlotKeeps(s: State, i: nat, q: nat)
    requires Inv(s) && Enabled(s, ReuseSlot(i, q))
    ensures Inv(Apply(s, ReuseSlot(i, q)))
  {
    hide HistOk, HistsOk, QueueOk, Listed, PcStage, Busy;
    var s' := Apply(s, ReuseSlot(i, q));
    assert Reusable(s, i);
    forall t | 0 <= t < |s.threads| && s.threads[t].slot == i ensures ThreadOk(s', t) {
      assert ThreadOk(s, t);
      ReusableIsQuiet(s, i, t);
    }
    SlotStepKeeps(s, s', i);
  }

  lemma ResumeLockKeeps(s: State, i: nat)
    requires Inv(s) && Enabled(s, ResumeLock(i))
    ensures Inv(Apply(s, ResumeLock(i)))
  {
    hide HistOk, HistsOk, QueueOk, Listed, PcStage, Busy;
    var s' := Apply(s, ResumeLock(i));
    assert SlotOk(s, i);
    forall t | 0 <= t < |s.threads| && s.threads[t].slot == i ensures ThreadOk(s', t) {
      assert ThreadOk(s, t);
    }
    SlotStepKeeps(s, s', i);
  }

  lemma PublishKeeps(s: State, i: nat)
    requires Inv(s) && Enabled(s, Publish(i))
    ensures Inv(Apply(s, Publish(i)))
  {
    hide HistOk, HistsOk, QueueOk, Listed, PcStage, Busy;
    var s' := Apply(s, Publish(i));
    assert SlotOk(s, i);
    forall t | 0 <= t < |s.threads| && s.threads[t].slot == i ensures ThreadOk(s', t) {
      assert ThreadOk(s, t);
    }
    SlotStepKeeps(s, s', i);
  }

  lemma CancelKeeps(s: State, step: Step)
    requires Inv(s) && Enabled(s, step) && (step.CancelLock? || step.CancelWrite? || step.CancelUnlock?)
    ensures Inv(Apply(s, step))
  {
    hide HistOk, HistsOk, QueueOk, Listed, PcStage, Busy;
    var s' := Apply(s, step);
    var i := if step.CancelLock? then step.i else s.lock.slot;
    assert SlotOk(s, i);
    forall t | 0 <= t < |s.threads| && s.threads[t].slot == i ensures ThreadOk(s', t) {
      CancelKeepsThread(s, step, t);
    }
    SlotStepKeeps(s, s', i);
  }

  lemma CancelKeepsThread(s: State, step: Step, t: nat)
    requires Inv(s) && Enabled(s, step) && (step.CancelLock? || step.CancelWrite? || step.CancelUnlock?) && t < |s.threads|
    ensures ThreadOk(Apply(s, step), t)
  {
    hide HistOk, HistsOk, QueueOk, QueuesOk, Listed, ListedOk, PcStage, Busy, SlotOk, SlotsOk, Distinct;
    hide ApplyToThread, ApplyToDelivery, ApplyToWorker;
    assert ThreadOk(s, t);
  }

  // ---- a new thread

  lemma SpawnKeeps(s: State, i: nat)
    requires Inv(s) && Enabled(s, Spawn(i))
    ensures Inv(Apply(s, Spawn(i)))
  {
    var s' := Apply(s, Spawn(i));
    var n := |s.threads|;
    assert SlotOk(s, i);
    assert ThreadsOk(s') by {
      hide HistOk, HistsOk, QueueOk, Listed, Busy;
      forall t | 0 <= t < |s'.threads| ensures ThreadOk(s', t) {
        if t < n { assert ThreadOk(s, t); }
      }
    }
    assert SlotsOk(s') by {
      hide HistOk, HistsOk, QueueOk, Listed, Busy;
      forall j | 0 <= j < |s.slots| ensures SlotOk(s', j) {
        assert SlotOk(s, j);
      }
    }
    SpawnKeepsQueues(s, s', i);
    SpawnKeepsHists(s, s', i);
    assert s'.threads[..n] == s.threads;
  }

  lemma SpawnKeepsQueues(s: State, s': State, i: nat)
    requires Inv(s) && Enabled(s, Spawn(i)) && s' == Apply(s, Spawn(i))
    ensures QueuesOk(s') && ListedOk(s')
  {
    hide HistOk, HistsOk, Busy;
    assert SlotOk(s, i);
    forall q | 0 <= q < |s.queues| ensures QueueOk(s', q) {
      assert QueueOk(s, q);
    }
    forall t | 0 <= t < |s'.threads| ensures s'.threads[t].queue < |s'.queues| && Listed(s', t) {
      if t < |s.threads| { assert Listed(s, t); }
    }
  }

  lemma SpawnKeepsHists(s: State, s': State, i: nat)
    requires Inv(s) && Enabled(s, Spawn(i)) && s' == Apply(s, Spawn(i))
    ensures HistsOk(s') && Distinct(s')
  {
    hide QueueOk, Listed, Busy, PcStage;
    var n := |s.threads|;
    forall t | 0 <= t < n ensures IdOf(s.threads[t]) != (i, s.slots[i].inc) {
      assert ThreadOk(s, t);
      assert SlotOk(s, i);
    }
    assert (i, s.slots[i].inc) !in s.hist;
    forall x | x in s'.hist ensures Owned(s', x) {
      var t :| 0 <= t < n && IdOf(s.threads[t]) == x;
      assert IdOf(s'.threads[t]) == x;
    }
  }

  // ---- one thread moves

  /** Thread `t` moves, and may write its own slot and its own history. */
  ghost predicate Moves(s: State, s': State, t: nat) {
    && t < |s.threads| && |s'.threads| == |s.threads| && |s'.slots| == |s.slots|
    && s'.threads == s.threads[t := s'.threads[t]] && s'.lock == s.lock
    && IdOf(s'.threads[t]) == IdOf(s.threads[t]) && s'.threads[t].queue == s.threads[t].queue
    && s.threads[t].slot < |s.slots| && s.threads[t].inc == s.slots[s.threads[t].slot].inc
    && s'.slots == s.slots[s.threads[t].slot := s'.slots[s.threads[t].slot]]
    && SameLife(s.slots[s.threads[t].slot], s'.slots[s.threads[t].slot].(delivered := s.slots[s.threads[t].slot].delivered))
    && |s'.queues| == |s.queues|
    && (forall q :: 0 <= q < |s.queues| ==> s'.queues[q].serial == s.queues[q].serial)
  }

  /** Nothing the queues see of the thread changes. */
  ghost predicate Unseen(a: Thread, b: Thread) {
    && (a.stage.InQueue? <==> b.stage.InQueue?)
    && (InService(a.stage) && !a.pc.Inline? <==> InService(b.stage) && !b.pc.Inline?)
    && (a.stage.InQueue? && a.pc.Waking? ==> b.pc.Waking?)
  }

  lemma MoveKeepsThreads(s: State, s': State, t: nat)
    requires Inv(s) && Moves(s, s', t) && ThreadOk(s', t)
    ensures ThreadsOk(s') && SlotsOk(s') && Distinct(s') && LockOk(s')
  {
    hide HistOk, HistsOk, QueueOk, Listed, PcStage, Busy;
    var i := s.threads[t].slot;
    forall u | 0 <= u < |s.threads| ensures ThreadOk(s', u) {
      assert ThreadOk(s, u);
      if u != t && s.threads[u].slot == i {
        assert IdOf(s.threads[u]) != IdOf(s.threads[t]);
      }
    }
    assert ThreadOk(s, t);
    forall j | 0 <= j < |s.slots| ensures SlotOk(s', j) {
      assert SlotOk(s, j);
    }
  }

  lemma MoveKeepsQueues(s: State, s': State, t: nat)
    requires Inv(s) && Moves(s, s', t) && s'.queues == s.queues && Unseen(s.threads[t], s'.threads[t])
    ensures QueuesOk(s') && ListedOk(s')
  {
    hide HistOk, HistsOk, ThreadOk, SlotOk, PcStage, Busy;
    forall q | 0 <= q < |s.queues| ensures QueueOk(s', q) {
      assert QueueOk(s, q);
    }
    forall u | 0 <= u < |s.threads| ensures Listed(s', u) {
      assert Listed(s, u);
    }
  }

  lemma MoveKeepsHists(s: State, s': State, t: nat)
    requires Inv(s) && Moves(s, s', t)
    requires forall x :: x != IdOf(s.threads[t]) ==> HistOf(s', x) == HistOf(s, x)
    requires forall x :: x in s'.hist ==> x in s.hist || x == IdOf(s.threads[t])
    requires HistOk(HistOf(s', IdOf(s.threads[t])), s'.threads[t])
    ensures HistsOk(s')
  {
    hide ThreadOk, SlotOk, QueueOk, Listed, PcStage, Busy, HistOk, HistOf;
    forall u | 0 <= u < |s.threads| ensures HistOk(HistOf(s', IdOf(s'.threads[u])), s'.threads[u]) {
    }
    forall x | x in s'.hist ensures Owned(s', x) {
      if x in s.hist {
        var u :| 0 <= u < |s.threads| && IdOf(s.threads[u]) == x;
        assert IdOf(s'.threads[u]) == x;
      } else {
        assert IdOf(s'.threads[t]) == x;
      }
    }
  }

  lemma MoveKeeps(s: State, s': State, t: nat)
    requires Inv(s) && Moves(s, s', t) && ThreadOk(s', t)
    requires s'.queues == s.queues && Unseen(s.threads[t], s'.threads[t])
    requires s'.hist == s.hist && HistOk(HistOf(s, IdOf(s.threads[t])), s'.threads[t])
    requires s'.inflight + (if Delivering(s.threads[t].pc) then 1 else 0)
          == s.inflight + (if Delivering(s'.threads[t].pc) then 1 else 0)
    ensures Inv(s')
  {
    hide HistOk, ThreadOk, SlotOk, QueueOk, Listed, PcStage, Busy, Delivering, ThreadsOk, SlotsOk, QueuesOk, ListedOk, HistsOk, Distinct, Unseen;
    MoveKeepsThreads(s, s', t);
    MoveKeepsQueues(s, s', t);
    MoveKeepsHists(s, s', t);
    BusyUpdate(s.threads, t, s'.threads[t]);
  }
}
