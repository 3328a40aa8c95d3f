/** Timers, wakeups and claims: what the last word on a timer is, that a waiting source thread hears of
    it, and which slot a new source gets. */
module SourceTimers {
  import opened Wrappers
  import opened Sources
  import opened SourceInvariants
  import opened SourceSteps
  import opened SourceTheorems
  import opened SourceCounts

  // ---- the last word on a timer

  /** In the run, what was last done to slot `i`'s timer: set or cleared by a caller, taken off when it
      comes due or is cancelled, put on again after the delivery of an event. */
  predicate LastArmed(s: State, steps: seq<Step>, i: nat)
    decreases |steps|
  {
    steps != [] &&
    var front, step := steps[..|steps| - 1], steps[|steps| - 1];
    var before := Exec(s, front);
    if Enabled(before, step) && Arms(before, step, i).Some? then Arms(before, step, i).value
    else LastArmed(s, front, i)
  }

  function Arms(s: State, step: Step, i: nat): Option<bool>
    requires Enabled(s, step)
  {
    match step
    case NewSlot(_) => if i == |s.slots| then Some(false) else None
    case ReuseSlot(j, _) => if j == i then Some(false) else None
    case SetTimer(j, on) => if j == i then Some(on) else None
    case CancelWrite => if s.lock == Cancelling(i, 1) then Some(false) else None
    case FireNow(t) => if s.threads[t].slot == i then Some(false) else None
    case Fire(t) => if s.threads[t].slot == i then Some(false) else None
    case LeaveDelivery(t, again) => if s.threads[t].slot == i && again && !s.threads[t].cleanup then Some(true) else None
    case _ => None
  }

  predicate ArmedAfter(s: State, step: Step, i: nat)
    requires Enabled(s, step) && i < |Apply(s, step).slots|
  {
    Apply(s, step).slots[i].armed ==
      if Arms(s, step, i).Some? then Arms(s, step, i).value else i < |s.slots| && s.slots[i].armed
  }

  lemma SlotArmed(s: State, step: Step, i: nat)
    requires Enabled(s, step) && OfSlot(step) && i < |Apply(s, step).slots|
    ensures ArmedAfter(s, step, i)
  {
    hide Reusable, Claimable, ApplyToThread, ApplyToDelivery, ApplyToWorker;
  }

  lemma ThreadArmed(s: State, step: Step, i: nat)
    requires Enabled(s, step) && OfThread(step) && i < |Apply(s, step).slots|
    ensures ArmedAfter(s, step, i)
  {
    hide ApplyToSlot, ApplyToDelivery, ApplyToWorker;
  }

  lemma DeliveryArmed(s: State, step: Step, i: nat)
    requires Enabled(s, step) && OfDelivery(step) && i < |Apply(s, step).slots|
    ensures ArmedAfter(s, step, i)
  {
    hide ApplyToSlot, ApplyToThread, ApplyToWorker;
  }

  lemma WorkerArmed(s: State, step: Step, i: nat)
    requires Enabled(s, step) && !OfSlot(step) && !OfThread(step) && !OfDelivery(step) && i < |Apply(s, step).slots|
    ensures ArmedAfter(s, step, i)
  {
    hide ApplyToSlot, ApplyToThread, ApplyToDelivery, HistOf, Begun, Ended;
  }

  lemma StepArmed(s: State, step: Step, i: nat)
    requires Enabled(s, step) && i < |Apply(s, step).slots|
    ensures ArmedAfter(s, step, i)
  {
    hide Apply, Enabled, ArmedAfter;
    if OfSlot(step) { SlotArmed(s, step, i); }
    else if OfThread(step) { ThreadArmed(s, step, i); }
    else if OfDelivery(step) { DeliveryArmed(s, step, i); }
    else { WorkerArmed(s, step, i); }
  }

  /** A timer is armed exactly when that is the last word on it. */
  lemma {:induction false} ArmedIsLastWord(serial: seq<bool>, steps: seq<Step>, i: nat)
    ensures var s := Reached(serial, steps);
      if i < |s.slots| then s.slots[i].armed == LastArmed(Init(serial), steps, i) else !LastArmed(Init(serial), steps, i)
  {
    hide Apply, Enabled, Arms;
    if steps != [] {
      var front, step := steps[..|steps| - 1], steps[|steps| - 1];
      var before := Reached(serial, front);
      ArmedIsLastWord(serial, front, i);
      ExecKeeps(serial, front);
      if Enabled(before, step) {
        if i < |Apply(before, step).slots| {
          StepArmed(before, step, i);
        } else {
          NoSlotNoWord(before, step, i);
        }
      }
    }
  }

  lemma NoSlotNoWord(s: State, step: Step, i: nat)
    requires Inv(s) && Enabled(s, step) && i >= |Apply(s, step).slots|
    ensures Arms(s, step, i).None? && i >= |s.slots|
  {
    hide Inv, Reusable, Claimable, HistOf, Begun, Ended;
  }

  // ---- no wakeup is lost

  predicate BeingCancelled(s: State, i: nat) {
    s.lock.Cancelling? && s.lock.slot == i && s.lock.done < 2
  }

  /** A thread that waits, or is about to, is signalled once its source is cancelled; and one that waits
      for no timer, once there is one. */
  predicate Hears(s: State, t: nat) {
    t < |s.threads| && s.threads[t].slot < |s.slots| ==>
      var th, c := s.threads[t], s.slots[s.threads[t].slot];
      && ((th.pc.Body? || th.pc.Waiting?) && !c.running && !BeingCancelled(s, th.slot) ==> c.rearm)
      && (th.pc == Waiting(false) && c.armed ==> c.rearm)
  }

  lemma SlotHears(s: State, step: Step, t: nat)
    requires Enabled(s, step) && OfSlot(step) && Hears(s, t)
    requires t < |s.threads| ==> s.threads[t].slot < |s.slots|
    requires step.ReuseSlot? && t < |s.threads| && s.threads[t].slot == step.i ==> s.threads[t].pc.Exited?
    ensures Hears(Apply(s, step), t)
  {
    hide ApplyToThread, ApplyToDelivery, ApplyToWorker, Reusable, Claimable;
  }

  lemma OwnLoopHears(s: State, step: Step, t: nat)
    requires Enabled(s, step) && OfThread(step) && step.t == t && Hears(s, t)
    ensures Hears(Apply(s, step), t)
  {
    hide ApplyToSlot, ApplyToDelivery, ApplyToWorker;
  }

  lemma OtherLoopHears(s: State, step: Step, t: nat)
    requires Enabled(s, step) && OfThread(step) && step.t != t && Hears(s, t)
    requires t < |s.threads| && !s.threads[t].pc.Exited? ==> s.threads[step.t].slot != s.threads[t].slot
    ensures Hears(Apply(s, step), t)
  {
    hide ApplyToSlot, ApplyToDelivery, ApplyToWorker;
  }

  lemma DeliveryHears(s: State, step: Step, t: nat)
    requires Enabled(s, step) && OfDelivery(step) && Hears(s, t)
    requires step.t != t && t < |s.threads| && !s.threads[t].pc.Exited? ==> s.threads[step.t].slot != s.threads[t].slot
    ensures Hears(Apply(s, step), t)
  {
    hide ApplyToSlot, ApplyToThread, ApplyToWorker;
  }

  lemma WorkerHears(s: State, step: Step, t: nat)
    requires Enabled(s, step) && !OfSlot(step) && !OfThread(step) && !OfDelivery(step) && Hears(s, t)
    ensures Hears(Apply(s, step), t)
  {
    hide ApplyToSlot, ApplyToThread, ApplyToDelivery, HistOf, Begun, Ended;
  }

  lemma StepHears(s: State, step: Step, t: nat)
    requires Inv(s) && Enabled(s, step) && Hears(s, t)
    ensures Hears(Apply(s, step), t)
  {
    hide Apply, Enabled, Hears, Inv;
    ThreadFacts(s, t);
    if OfSlot(step) {
      if step.ReuseSlot? && t < |s.threads| && s.threads[t].slot == step.i { ReusedIsQuiet(s, step, t); }
      SlotHears(s, step, t);
    } else if OfThread(step) || OfDelivery(step) {
      ActorIsLive(s, step);
      if step.t != t && t < |s.threads| && !s.threads[t].pc.Exited? { OthersSlot(s, t, step.t); }
      if OfDelivery(step) { DeliveryHears(s, step, t); }
      else if step.t == t { OwnLoopHears(s, step, t); }
      else { OtherLoopHears(s, step, t); }
    } else {
      WorkerHears(s, step, t);
    }
  }

  lemma {:induction false} AlwaysHears(serial: seq<bool>, steps: seq<Step>, t: nat)
    ensures Hears(Reached(serial, steps), t)
  {
    hide Apply, Enabled, Hears, Inv;
    if steps == [] {
      NobodyYet(serial, t);
    } else {
      var front, step := steps[..|steps| - 1], steps[|steps| - 1];
      AlwaysHears(serial, front, t);
      ExecKeeps(serial, front);
      if Enabled(Reached(serial, front), step) { StepHears(Reached(serial, front), step, t); }
    }
  }

  lemma NobodyYet(serial: seq<bool>, t: nat)
    ensures Hears(Init(serial), t)
  {
  }

  /** A source thread that waits can go on once its source is cancelled, and whenever its timer is armed:
      no cancellation and no setting of a timer is slept through. */
  lemma WaitingThreadGoesOn(serial: seq<bool>, steps: seq<Step>, t: nat)
    ensures var s := Reached(serial, steps);
      t < |s.threads| && s.threads[t].pc.Waiting? ==>
        && s.threads[t].slot < |s.slots|
        && (CancelWritten(Init(serial), steps, IdOf(s.threads[t])) && !BeingCancelled(s, s.threads[t].slot) ==>
              Enabled(s, TakeRearm(t)))
        && (s.slots[s.threads[t].slot].armed ==> Enabled(s, TakeRearm(t)) || Enabled(s, TimeOut(t)))
  {
    hide Apply, CancelWritten, Inv;
    var s := Reached(serial, steps);
    ExecKeeps(serial, steps);
    AlwaysHears(serial, steps, t);
    if t < |s.threads| && s.threads[t].pc.Waiting? {
      ThreadFacts(s, t);
      WrittenIsStopped(serial, steps, s.threads[t].slot);
    }
  }

  // ---- the slot a new source gets

  /** How many sources the run has retired, */
  function Retirements(s: State, steps: seq<Step>): nat
    decreases |steps|
  {
    if steps == [] then 0
    else
      var front := steps[..|steps| - 1];
      Retirements(s, front) + if Retires(Exec(s, front), steps[|steps| - 1]).Some? then 1 else 0
  }

  /** and which of them slot `i` last was. */
  function RetiredAs(s: State, steps: seq<Step>, i: nat): nat
    decreases |steps|
  {
    if steps == [] then 0
    else
      var front := steps[..|steps| - 1];
      if Retires(Exec(s, front), steps[|steps| - 1]) == Some(i) then Retirements(s, front) + 1 else RetiredAs(s, front, i)
  }

  /** The last of a canceller's three writes retires its slot. */
  function Retires(s: State, step: Step): Option<nat> {
    if step.CancelWrite? && s.lock.Cancelling? && s.lock.slot < |s.slots| && s.lock.done == 2 then Some(s.lock.slot) else None
  }

  predicate RetiredAfter(s: State, step: Step, i: nat)
    requires Enabled(s, step) && i < |Apply(s, step).slots|
  {
    var s' := Apply(s, step);
    && s'.retireSeq == (if Retires(s, step).Some? then s.retireSeq + 1 else s.retireSeq)
    && if Retires(s, step) == Some(i) then s'.slots[i].retiredAt == s.retireSeq + 1
       else s'.slots[i].retired ==>
              i < |s.slots| && s.slots[i].retired && s'.slots[i].retiredAt == s.slots[i].retiredAt
  }

  lemma SlotRetired(s: State, step: Step, i: nat)
    requires Enabled(s, step) && OfSlot(step) && i < |Apply(s, step).slots|
    ensures RetiredAfter(s, step, i)
  {
    hide Reusable, Claimable, ApplyToThread, ApplyToDelivery, ApplyToWorker;
  }

  lemma LoopRetired(s: State, step: Step, i: nat)
    requires Enabled(s, step) && OfThread(step) && i < |Apply(s, step).slots|
    ensures RetiredAfter(s, step, i)
  {
    hide ApplyToSlot, ApplyToDelivery, ApplyToWorker;
  }

  lemma DeliveryRetired(s: State, step: Step, i: nat)
    requires Enabled(s, step) && OfDelivery(step) && i < |Apply(s, step).slots|
    ensures RetiredAfter(s, step, i)
  {
    hide ApplyToSlot, ApplyToThread, ApplyToWorker;
  }

  lemma WorkerRetired(s: State, step: Step, i: nat)
    requires Enabled(s, step) && !OfSlot(step) && !OfThread(step) && !OfDelivery(step) && i < |Apply(s, step).slots|
    ensures RetiredAfter(s, step, i)
  {
    hide ApplyToSlot, ApplyToThread, ApplyToDelivery, HistOf, Begun, Ended;
  }

  lemma StepRetired(s: State, step: Step, i: nat)
    requires Enabled(s, step) && i < |Apply(s, step).slots|
    ensures RetiredAfter(s, step, i)
  {
    hide Apply, Enabled, RetiredAfter;
    if OfSlot(step) { SlotRetired(s, step, i); }
    else if OfThread(step) { LoopRetired(s, step, i); }
    else if OfDelivery(step) { DeliveryRetired(s, step, i); }
    else { WorkerRetired(s, step, i); }
  }

  lemma {:induction false} RetirementsAreNumbered(serial: seq<bool>, steps: seq<Step>, i: nat)
    ensures var s := Reached(serial, steps);
      && (i < |s.slots| ==> s.retireSeq == Retirements(Init(serial), steps))
      && (i < |s.slots| && s.slots[i].retired ==> s.slots[i].retiredAt == RetiredAs(Init(serial), steps, i))
  {
    hide Apply, Enabled, Retires;
    if steps != [] {
      var front, step := steps[..|steps| - 1], steps[|steps| - 1];
      var before := Reached(serial, front);
      RetirementsAreNumbered(serial, front, i);
      RetireCount(serial, front);
      if !Enabled(before, step) {
        NotRetired(before, step);
      } else if i < |Apply(before, step).slots| {
        StepRetired(before, step, i);
      }
    }
  }

  lemma NotRetired(s: State, step: Step)
    requires !Enabled(s, step)
    ensures Retires(s, step).None?
  {
  }

  lemma CountStep(s: State, step: Step)
    requires Enabled(s, step)
    ensures Apply(s, step).retireSeq == if Retires(s, step).Some? then s.retireSeq + 1 else s.retireSeq
  {
    hide Reusable, Claimable, HistOf, Begun, Ended;
  }

  lemma {:induction false} RetireCount(serial: seq<bool>, steps: seq<Step>)
    ensures Reached(serial, steps).retireSeq == Retirements(Init(serial), steps)
  {
    hide Apply, Enabled, Retires;
    if steps != [] {
      var front, step := steps[..|steps| - 1], steps[|steps| - 1];
      RetireCount(serial, front);
      if Enabled(Reached(serial, front), step) {
        CountStep(Reached(serial, front), step);
      } else {
        NotRetired(Reached(serial, front), step);
      }
    }
  }

  /** Cancelled, its thread published and gone. */
  predicate Vacant(s: State, i: nat)
    requires i < |s.slots|
  {
    var c := s.slots[i];
    c.retired && !c.starting && (c.thread.None? || (c.thread.value < |s.threads| && s.threads[c.thread.value].pc.Exited?))
  }

  /** A new source gets, of the vacant slots, the one that has been retired the longest, and an unused
      one only when there is none. */
  lemma LongestRetiredIsClaimed(serial: seq<bool>, steps: seq<Step>, step: Step)
    requires Enabled(Reached(serial, steps), step)
    ensures var s := Reached(serial, steps);
      && (step.ReuseSlot? ==>
            && step.i < |s.slots| && Vacant(s, step.i)
            && forall j: nat :: j < |s.slots| && Vacant(s, j) ==>
                 RetiredAs(Init(serial), steps, step.i) <= RetiredAs(Init(serial), steps, j))
      && (step.NewSlot? ==> forall j: nat :: j < |s.slots| ==> !Vacant(s, j))
  {
    hide Retires, Exec, RetiredAs;
    var s := Reached(serial, steps);
    if step.ReuseSlot? {
      RetirementsAreNumbered(serial, steps, step.i);
      forall j: nat | j < |s.slots| && Vacant(s, j)
        ensures RetiredAs(Init(serial), steps, step.i) <= RetiredAs(Init(serial), steps, j)
      {
        RetirementsAreNumbered(serial, steps, j);
        assert Reusable(s, j);
      }
    } else if step.NewSlot? {
      forall j: nat | j < |s.slots| ensures !Vacant(s, j) {
        assert !Reusable(s, j);
      }
    }
  }
}
