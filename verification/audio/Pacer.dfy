/** The pacer: engine workers queue slices, one thread completes them, others ask whether it is idle. */
module Pacer {
  import opened Wrappers
  import opened PacerRing

  const QWAIT: nat := 500

  /** The job the pacer holds, and how far it has got with it: whether its utterance is still
      wanted is tested first, and what the test said is acted on later. */
  datatype Hand = Empty | Held(job: Job) | Tested(job: Job, wanted: bool) | Judged(job: Job) | Completed(job: Job)

  /** Which utterance and restart a collected slice was stamped for, and whose buffer it went into. */
  datatype Home = Home(utt: nat, buffer: nat, epoch: nat)

  /** `waiting` maps an offered slice to how often it has found the queue full.  A new utterance
      clears the buffer for itself before it becomes the current one: `buffer` is the utterance
      being filled, `utt` the current one.  `accepted`, `judged`, `kept`, `stale`, `completed` and
      `dropped` are histories of slice numbers. */
  datatype State = State(
    queue: seq<Job>, hand: Hand, busy: bool, waiting: map<nat, nat>, offered: nat, drops: nat,
    utt: nat, buffer: nat, epoch: nat, cancel: bool,
    accepted: seq<nat>, judged: seq<nat>, kept: map<nat, Home>, stale: set<nat>, completed: seq<nat>, dropped: set<nat>)

  datatype Step =
    | Offer | Try(id: nat)
    | TakeJob | Test | Judge | Complete | Release
    | ClearTimeline | NextUtterance | NextEpoch | SetCancel(on: bool)

  function Start(): State { State([], Empty, false, map[], 0, 0, 0, 0, 0, false, [], [], map[], {}, [], {}) }

  predicate Enabled(s: State, step: Step) {
    match step
    case Try(id) => id in s.waiting
    case TakeJob => s.hand.Empty? && !s.busy && s.queue != []
    case Test => s.hand.Held?
    case Judge => s.hand.Tested?
    case Complete => s.hand.Judged?
    case Release => s.hand.Completed?
    case ClearTimeline => s.buffer == s.utt
    case NextUtterance => s.buffer == s.utt + 1
    case _ => true
  }

  /** One turn of `queue_completion`'s loop: enter the queue, give up, or wait once more. */
  function Tried(s: State, id: nat): State
    requires id in s.waiting
  {
    var job := Job(id, s.utt, s.epoch);
    var q := Queued(s.queue, job);
    if q.Some? then s.(queue := q.value, waiting := s.waiting - {id}, accepted := s.accepted + [id])
    else if s.waiting[id] >= QWAIT then
      s.(waiting := s.waiting - {id}, drops := s.drops + 1, dropped := s.dropped + {id})
    else s.(waiting := s.waiting[id := s.waiting[id] + 1])
  }

  /** Collect the slice into the buffer as it is now, or count it stale. */
  function Acted(s: State, j: Job, wanted: bool): State {
    var judged := s.(hand := Judged(j), judged := s.judged + [j.id]);
    if wanted then judged.(kept := s.kept[j.id := Home(j.utt, s.buffer, j.epoch)]) else judged.(stale := s.stale + {j.id})
  }

  function Apply(s: State, step: Step): State
    requires Enabled(s, step)
  {
    match step
    case Offer => s.(waiting := s.waiting[s.offered := 0], offered := s.offered + 1)
    case Try(id) => Tried(s, id)
    case TakeJob => s.(queue := s.queue[1..], hand := Held(s.queue[0]), busy := true)
    case Test => s.(hand := Tested(s.hand.job, s.hand.job.utt == s.utt && !s.cancel))
    case Judge => Acted(s, s.hand.job, s.hand.wanted)
    case Complete => s.(hand := Completed(s.hand.job), completed := s.completed + [s.hand.job.id])
    case Release => s.(hand := Empty, busy := false)
    case ClearTimeline => s.(buffer := s.buffer + 1)
    case NextUtterance => s.(utt := s.utt + 1)
    case NextEpoch => s.(epoch := s.epoch + 1)
    case SetCancel(on) => s.(cancel := on)
  }

  function Exec(s: State, steps: seq<Step>): State {
    if steps == [] then s
    else
      var before := Exec(s, steps[..|steps| - 1]);
      var step := steps[|steps| - 1];
      if Enabled(before, step) then Apply(before, step) else before
  }

  function Ids(q: seq<Job>): (r: seq<nat>)
    ensures |r| == |q|
  {
    seq(|q|, k requires 0 <= k < |q| => q[k].id)
  }

  function Unjudged(h: Hand): seq<nat> { if h.Held? || h.Tested? then [h.job.id] else [] }

  function Uncompleted(h: Hand): seq<nat> { if h.Held? || h.Tested? || h.Judged? then [h.job.id] else [] }

  predicate Distinct(s: seq<nat>) {
    forall i, j :: 0 <= i < j < |s| ==> s[i] != s[j]
  }

  ghost predicate Ordered(s: State) {
    && s.accepted == s.judged + Unjudged(s.hand) + Ids(s.queue)
    && s.accepted == s.completed + Uncompleted(s.hand) + Ids(s.queue)
    && Distinct(s.accepted)
  }

  /** Every offered slice is in exactly one place. */
  ghost predicate Placed(s: State) {
    && (forall x :: x in s.accepted ==> x < s.offered)
    && (forall x :: x in s.waiting ==> x < s.offered && x !in s.accepted && s.waiting[x] <= QWAIT)
    && (forall x :: x in s.dropped ==> x < s.offered && x !in s.accepted && x !in s.waiting)
    && |s.accepted| + |s.waiting| + |s.dropped| == s.offered
    && s.drops == |s.dropped|
  }

  /** No slice is stamped with an utterance still to come. */
  ghost predicate Stamped(s: State) {
    && s.utt <= s.buffer <= s.utt + 1
    && (forall k :: 0 <= k < |s.queue| ==> s.queue[k].utt <= s.utt)
    && (!s.hand.Empty? ==> s.hand.job.utt <= s.utt)
  }

  ghost predicate Inv(s: State) {
    && |s.queue| <= QCAP
    && (s.busy <==> !s.hand.Empty?)
    && Ordered(s) && Placed(s) && Stamped(s)
    && Settled(s)
  }

  /** What was judged was either collected or counted stale, not both. */
  ghost predicate Settled(s: State) {
    && (forall x :: x in s.judged <==> x in s.kept || x in s.stale)
    && (forall x :: x in s.kept ==> x !in s.stale)
  }

  lemma TryKeeps(s: State, id: nat)
    requires Inv(s) && id in s.waiting
    ensures Inv(Tried(s, id))
  {
    hide Inv;
    if |s.queue| < QCAP {
      EnterKeeps(s, id);
    } else {
      StayOutKeeps(s, id);
    }
  }

  lemma EnterKeeps(s: State, id: nat)
    requires Inv(s) && id in s.waiting && |s.queue| < QCAP
    ensures Inv(Tried(s, id))
  {
    hide Ordered, Placed, Stamped, Settled;
    EnterOrder(s, id);
    EnterPlaced(s, id);
    EnterStamps(s, id);
    SameJudgement(s, Tried(s, id));
  }

  lemma EnterOrder(s: State, id: nat)
    requires Ordered(s) && Placed(s) && id in s.waiting && |s.queue| < QCAP
    ensures Ordered(Tried(s, id))
  {
    var s' := Tried(s, id);
    assert id !in s.accepted;
    assert Ids(s'.queue) == Ids(s.queue) + [id];
    Associates(s.judged + Unjudged(s.hand), Ids(s.queue), id);
    Associates(s.completed + Uncompleted(s.hand), Ids(s.queue), id);
  }

  lemma Associates(a: seq<nat>, b: seq<nat>, x: nat)
    ensures a + b + [x] == a + (b + [x])
    ensures a + [] + ([x] + b) == a + [x] + b == (a + [x]) + [] + b
  {
  }

  lemma EnterPlaced(s: State, id: nat)
    requires Placed(s) && id in s.waiting && |s.queue| < QCAP
    ensures Placed(Tried(s, id))
  {
    RemoveWaiting(s.waiting, id);
  }

  lemma EnterStamps(s: State, id: nat)
    requires Stamped(s) && id in s.waiting && |s.queue| < QCAP
    ensures Stamped(Tried(s, id))
  {
  }

  lemma RemoveWaiting(w: map<nat, nat>, id: nat)
    requires id in w
    ensures |w - {id}| == |w| - 1
  {
    assert w.Keys == (w - {id}).Keys + {id};
    assert |w.Keys| == |w| && |(w - {id}).Keys| == |w - {id}|;
  }

  lemma StayOutKeeps(s: State, id: nat)
    requires Inv(s) && id in s.waiting && |s.queue| >= QCAP
    ensures Inv(Tried(s, id))
  {
    hide Ordered, Placed, Stamped, Settled;
    SameOrder(s, Tried(s, id));
    SameJudgement(s, Tried(s, id));
    if s.waiting[id] >= QWAIT {
      GiveUpPlaced(s, id);
    } else {
      WaitOnPlaced(s, id);
    }
  }

  lemma GiveUpPlaced(s: State, id: nat)
    requires Placed(s) && id in s.waiting && |s.queue| >= QCAP && s.waiting[id] >= QWAIT
    ensures Placed(Tried(s, id))
  {
    RemoveWaiting(s.waiting, id);
    assert id !in s.dropped;
  }

  lemma WaitOnPlaced(s: State, id: nat)
    requires Placed(s) && id in s.waiting && |s.queue| >= QCAP && s.waiting[id] < QWAIT
    ensures Placed(Tried(s, id))
  {
    UpdateWaiting(s.waiting, id, s.waiting[id] + 1);
  }

  lemma UpdateWaiting(w: map<nat, nat>, id: nat, times: nat)
    requires id in w
    ensures |w[id := times]| == |w| && w[id := times].Keys == w.Keys
  {
    assert w[id := times].Keys == w.Keys;
    assert |w.Keys| == |w| && |w[id := times].Keys| == |w[id := times]|;
  }

  lemma SameOrder(s: State, s': State)
    requires s'.accepted == s.accepted && s'.judged == s.judged && s'.completed == s.completed
    requires s'.hand == s.hand && s'.queue == s.queue && s'.utt == s.utt && s'.buffer == s.buffer
    ensures Ordered(s) ==> Ordered(s')
    ensures Stamped(s) ==> Stamped(s')
  {
  }

  lemma OfferKeeps(s: State)
    requires Inv(s)
    ensures Inv(Apply(s, Offer))
  {
    hide Ordered, Placed, Stamped, Settled;
    SameOrder(s, Apply(s, Offer));
    SameJudgement(s, Apply(s, Offer));
    OfferPlaced(s);
  }

  lemma OfferPlaced(s: State)
    requires Placed(s)
    ensures Placed(Apply(s, Offer))
  {
    assert s.offered !in s.waiting;
    AddWaiting(s.waiting, s.offered);
  }

  lemma AddWaiting(w: map<nat, nat>, id: nat)
    requires id !in w
    ensures |w[id := 0]| == |w| + 1 && w[id := 0].Keys == w.Keys + {id}
  {
    assert w[id := 0].Keys == w.Keys + {id};
    assert |w.Keys| == |w| && |w[id := 0].Keys| == |w[id := 0]|;
  }

  lemma PacerKeeps(s: State, step: Step)
    requires Inv(s) && Enabled(s, step) && (step.TakeJob? || step.Test? || step.Judge? || step.Complete? || step.Release?)
    ensures Inv(Apply(s, step))
  {
    hide Placed, Ordered, Settled, Stamped;
    PacerOrder(s, step);
    PacerStamps(s, step);
    SamePlaces(s, Apply(s, step));
    if step.Judge? {
      JudgeSettles(s);
    } else {
      SameJudgement(s, Apply(s, step));
    }
  }

  lemma PacerOrder(s: State, step: Step)
    requires Ordered(s) && Enabled(s, step) && (step.TakeJob? || step.Test? || step.Judge? || step.Complete? || step.Release?)
    ensures Ordered(Apply(s, step))
  {
    hide Distinct, Ids;
    if step.TakeJob? {
      IdsTake(s.queue);
      Associates(s.judged, Ids(s.queue[1..]), s.queue[0].id);
      Associates(s.completed, Ids(s.queue[1..]), s.queue[0].id);
    } else {
      Associates(s.judged, Ids(s.queue), s.hand.job.id);
      Associates(s.completed, Ids(s.queue), s.hand.job.id);
    }
  }

  lemma PacerStamps(s: State, step: Step)
    requires Stamped(s) && Enabled(s, step) && (step.TakeJob? || step.Test? || step.Judge? || step.Complete? || step.Release?)
    ensures Stamped(Apply(s, step))
  {
  }

  lemma SameJudgement(s: State, s': State)
    requires Settled(s) && s'.judged == s.judged && s'.kept == s.kept && s'.stale == s.stale
    ensures Settled(s')
  {
  }

  lemma JudgeSettles(s: State)
    requires Ordered(s) && Settled(s) && Enabled(s, Judge)
    ensures Settled(Apply(s, Judge))
  {
    var id := s.hand.job.id;
    assert id !in s.judged by {
      assert s.accepted[|s.judged|] == id;
      assert forall i :: 0 <= i < |s.judged| ==> s.accepted[i] == s.judged[i];
    }
  }

  lemma IdsTake(q: seq<Job>)
    requires q != []
    ensures Ids(q) == [q[0].id] + Ids(q[1..])
  {
  }

  lemma SamePlaces(s: State, s': State)
    requires Placed(s) && s'.accepted == s.accepted && s'.waiting == s.waiting && s'.dropped == s.dropped
    requires s'.offered == s.offered && s'.drops == s.drops
    ensures Placed(s')
  {
  }

  lemma StepKeeps(s: State, step: Step)
    requires Inv(s) && Enabled(s, step)
    ensures Inv(Apply(s, step))
  {
    match step
    case Offer => OfferKeeps(s);
    case Try(id) => TryKeeps(s, id);
    case TakeJob => PacerKeeps(s, step);
    case Test => PacerKeeps(s, step);
    case Judge => PacerKeeps(s, step);
    case Complete => PacerKeeps(s, step);
    case Release => PacerKeeps(s, step);
    case _ =>
  }

  lemma {:induction false} ExecKeeps(s: State, steps: seq<Step>)
    requires Inv(s)
    ensures Inv(Exec(s, steps))
  {
    hide Inv, Apply, Enabled;
    if steps != [] {
      ExecKeeps(s, steps[..|steps| - 1]);
      if Enabled(Exec(s, steps[..|steps| - 1]), steps[|steps| - 1]) {
        StepKeeps(Exec(s, steps[..|steps| - 1]), steps[|steps| - 1]);
      }
    }
  }

  lemma StartKeeps()
    ensures Inv(Start())
  {
  }

  // ---- what it promises

  /** Slices are judged and completed in the order they were accepted, each exactly once, none is
      lost, and each judged one is either collected or counted stale. */
  lemma CompletedOnceInOrder(steps: seq<Step>)
    ensures var s := Exec(Start(), steps);
      && s.completed <= s.accepted && Distinct(s.accepted)
      && |s.accepted| == |s.completed| + |Uncompleted(s.hand)| + |s.queue|
      && s.judged <= s.accepted && s.completed <= s.judged
      && (forall x :: x in s.judged <==> x in s.kept || x in s.stale) && (forall x :: x in s.kept ==> x !in s.stale)
  {
    StartKeeps();
    ExecKeeps(Start(), steps);
  }

  /** Every slice ever offered is completed, queued, in hand, waiting to enter or counted as dropped. */
  lemma Conservation(steps: seq<Step>)
    ensures var s := Exec(Start(), steps);
      s.offered == |s.completed| + |Uncompleted(s.hand)| + |s.queue| + |s.waiting| + s.drops
  {
    StartKeeps();
    ExecKeeps(Start(), steps);
  }

  lemma HistoryStep(s: State, step: Step)
    requires Enabled(s, step)
    ensures var s' := Apply(s, step);
      && s.accepted <= s'.accepted && s.completed <= s'.completed
      && |s.accepted| - |s.queue| <= |s'.accepted| - |s'.queue|
  {
  }

  /** Histories only grow, and what was accepted and has left the queue stays out of it. */
  lemma {:induction false} HistoryGrows(s: State, steps: seq<Step>)
    ensures var s' := Exec(s, steps);
      && s.accepted <= s'.accepted && s.completed <= s'.completed
      && |s.accepted| - |s.queue| <= |s'.accepted| - |s'.queue|
  {
    hide Apply, Enabled;
    if steps != [] {
      var before := Exec(s, steps[..|steps| - 1]);
      HistoryGrows(s, steps[..|steps| - 1]);
      if Enabled(before, steps[|steps| - 1]) {
        HistoryStep(before, steps[|steps| - 1]);
      }
    }
  }

  /** `pacer_idle` reads the queue's length and, later, the busy flag.  When it says idle, every
      slice accepted before the first read has been judged and its completion has returned,
      whatever happened between the two reads. */
  lemma IdleIsSound(before: seq<Step>, between: seq<Step>)
    ensures var s1 := Exec(Start(), before);
      var s2 := Exec(s1, between);
      s1.queue == [] && !s2.busy ==> s1.accepted <= s2.completed && s1.accepted <= s2.judged
  {
    var s1 := Exec(Start(), before);
    var s2 := Exec(s1, between);
    StartKeeps();
    ExecKeeps(Start(), before);
    ExecKeeps(s1, between);
    HistoryGrows(s1, between);
  }

  /** The order of the reads matters: flag first, then length, could call a slice in flight idle. */
  lemma FlagFirstIsUnsound()
    ensures exists before: seq<Step>, between: seq<Step> ::
      var s1 := Exec(Start(), before);
      var s2 := Exec(s1, between);
      !s1.busy && s2.queue == [] && !(s1.accepted <= s2.completed)
  {
    var s0 := Start();
    var s1 := Apply(Apply(s0, Offer), Try(0));
    var s2 := Apply(s1, TakeJob);
    var before, between := [Offer, Try(0)], [TakeJob];
    assert before[..1] == [Offer] && [Offer][..0] == [] && between[..0] == [];
    assert Exec(s0, [Offer]) == Apply(s0, Offer);
    assert Exec(s0, before) == s1;
    assert Exec(s1, between) == s2;
    assert s1.accepted == [0] && s2.completed == [];
  }

  // ---- and that it gets on

  /** The pacer's own turns bring every accepted slice to its completion. */
  lemma {:induction false} AcceptedIsCompleted(s: State) returns (turns: seq<Step>)
    requires Inv(s)
    ensures var t := Exec(s, turns); Inv(t) && t.completed == s.accepted == t.accepted && t.queue == [] && !t.busy
    decreases |s.queue|, TurnsLeft(s.hand)
  {
    hide Placed, Distinct, Stamped, Settled;
    if s.queue == [] && s.hand.Empty? {
      turns := [];
      assert s.accepted == s.completed;
    } else {
      var step := NextTurn(s);
      StepKeeps(s, step);
      TurnShortens(s);
      var rest := AcceptedIsCompleted(Apply(s, step));
      ExecStep(s, step, rest);
      turns := [step] + rest;
    }
  }

  lemma TurnShortens(s: State)
    requires (s.busy <==> !s.hand.Empty?) && (s.queue != [] || !s.hand.Empty?)
    ensures Enabled(s, NextTurn(s))
    ensures var t := Apply(s, NextTurn(s));
      t.accepted == s.accepted && (|t.queue| < |s.queue| || (t.queue == s.queue && TurnsLeft(t.hand) < TurnsLeft(s.hand)))
  {
  }

  /** So from every reachable state a continuation completes all that was accepted. */
  lemma EverythingCanComplete(before: seq<Step>)
    ensures exists turns :: Exec(Exec(Start(), before), turns).completed == Exec(Start(), before).accepted
  {
    hide Inv, Exec;
    StartKeeps();
    ExecKeeps(Start(), before);
    var turns := AcceptedIsCompleted(Exec(Start(), before));
    assert Exec(Exec(Start(), before), turns).completed == Exec(Start(), before).accepted;
  }

  /** How often a slice has tried to enter the queue, and how often it found it full. */
  function Tries(s: State, steps: seq<Step>, id: nat): (nat, nat)
    decreases |steps|
  {
    if steps == [] then (0, 0)
    else
      var front, step := steps[..|steps| - 1], steps[|steps| - 1];
      var (all, full) := Tries(s, front, id);
      var before := Exec(s, front);
      if step == Try(id) && Enabled(before, step) then (all + 1, if |before.queue| >= QCAP then full + 1 else full)
      else (all, full)
  }

  /** A slice enters the first time it finds room, and is dropped only after it has found the queue
      full once more than it has patience for. */
  lemma {:induction false} DroppedOnlyAfterWaiting(steps: seq<Step>, id: nat)
    ensures var (s, (all, full)) := (Exec(Start(), steps), Tries(Start(), steps, id));
      && (id >= s.offered ==> all == full == 0)
      && (id in s.waiting ==> all == full == s.waiting[id])
      && (id in s.accepted ==> all == full + 1 && full <= QWAIT)
      && (id in s.dropped ==> all == full == QWAIT + 1)
  {
    hide Apply, Enabled, Inv;
    if steps != [] {
      var front, step := steps[..|steps| - 1], steps[|steps| - 1];
      var before := Exec(Start(), front);
      StartKeeps();
      ExecKeeps(Start(), front);
      PlacesApart(before, id);
      DroppedOnlyAfterWaiting(front, id);
      if Enabled(before, step) {
        if step == Try(id) {
          TryIsWaiting(before, id);
          OwnTry(before, id);
        } else {
          OtherStep(before, step, id);
        }
      }
    }
  }

  lemma PlacesApart(s: State, id: nat)
    requires Inv(s)
    ensures id in s.waiting ==> id < s.offered && id !in s.accepted && id !in s.dropped && s.waiting[id] <= QWAIT
    ensures id in s.accepted || id in s.dropped ==> id < s.offered && id !in s.waiting
    ensures id in s.accepted ==> id !in s.dropped
  {
    hide Ordered, Stamped, Settled;
  }

  lemma TryIsWaiting(s: State, id: nat)
    requires Enabled(s, Try(id))
    ensures id in s.waiting
  {
  }

  lemma OwnTry(s: State, id: nat)
    requires Enabled(s, Try(id)) && id !in s.accepted && id !in s.dropped
    ensures var t := Apply(s, Try(id));
      && id in s.waiting && t.offered == s.offered
      && (if |s.queue| < QCAP then id in t.accepted && id !in t.waiting && id !in t.dropped
          else if s.waiting[id] >= QWAIT then id in t.dropped && id !in t.waiting && id !in t.accepted
          else id in t.waiting && t.waiting[id] == s.waiting[id] + 1 && id !in t.accepted && id !in t.dropped)
  {
  }

  /** Nothing has become of slice `id` at its producer's end. */
  predicate AsBefore(s: State, t: State, id: nat) {
    && t.offered >= s.offered
    && (id in t.accepted <==> id in s.accepted) && (id in t.dropped <==> id in s.dropped)
    && (id in t.waiting ==> id in s.waiting && t.waiting[id] == s.waiting[id])
  }

  lemma OtherStep(s: State, step: Step, id: nat)
    requires Enabled(s, step) && step != Try(id)
    ensures var t := Apply(s, step);
      if step == Offer && id == s.offered then
        && t.offered > id && t.waiting == s.waiting[id := 0] && t.accepted == s.accepted && t.dropped == s.dropped
      else AsBefore(s, t, id)
  {
    if step.Try? {
      OtherTry(s, step.id, id);
    } else if !step.Offer? {
      ConsumerStep(s, step);
    }
  }

  lemma OtherTry(s: State, other: nat, id: nat)
    requires other in s.waiting && other != id
    ensures AsBefore(s, Tried(s, other), id)
  {
  }

  lemma ConsumerStep(s: State, step: Step)
    requires Enabled(s, step) && !step.Try? && !step.Offer?
    ensures var t := Apply(s, step);
      t.offered == s.offered && t.waiting == s.waiting && t.accepted == s.accepted && t.dropped == s.dropped
  {
  }

  // ---- utterances

  /** Slice `id` is accepted, and it is refused already, or will be: its utterance is over. */
  ghost predicate Outdated(s: State, id: nat) {
    && id < s.offered && id !in s.waiting && id !in s.kept
    && (forall k :: 0 <= k < |s.queue| ==> s.queue[k].id == id ==> s.queue[k].utt < s.utt)
    && (s.hand.Held? && s.hand.job.id == id ==> s.hand.job.utt < s.utt)
    && (s.hand.Tested? && s.hand.job.id == id ==> !s.hand.wanted)
  }

  lemma OutdatedStays(s: State, step: Step, id: nat)
    requires Outdated(s, id) && Enabled(s, step)
    ensures Outdated(Apply(s, step), id)
  {
  }

  lemma {:induction false} OutdatedForever(s: State, steps: seq<Step>, id: nat)
    requires Outdated(s, id)
    ensures Outdated(Exec(s, steps), id)
  {
    hide Outdated, Apply, Enabled;
    if steps != [] {
      OutdatedForever(s, steps[..|steps| - 1], id);
      if Enabled(Exec(s, steps[..|steps| - 1]), steps[|steps| - 1]) {
        OutdatedStays(Exec(s, steps[..|steps| - 1]), steps[|steps| - 1], id);
      }
    }
  }

  /** The slice in hand has passed the test and is not collected yet. */
  predicate Passed(s: State, id: nat) { s.hand.Tested? && s.hand.wanted && s.hand.job.id == id }

  /** The slice went into the buffer of an utterance it was not stamped for. */
  predicate Misplaced(s: State, id: nat) { id in s.kept && s.kept[id].buffer != s.kept[id].utt }

  /** Nothing stands in the way of collecting the slice: it has passed the test, or it is still to
      be tested and is of the current utterance. */
  predicate Wanted(s: State, id: nat) {
    || Passed(s, id)
    || (s.hand.Held? && s.hand.job.id == id && s.hand.job.utt == s.utt)
    || exists k :: 0 <= k < |s.queue| && s.queue[k].id == id && s.queue[k].utt == s.utt
  }

  /** The buffer is the next utterance's, and the pacer's state is in order. */
  ghost predicate Between(s: State) {
    s.buffer == s.utt + 1 && (s.busy <==> !s.hand.Empty?) && Stamped(s)
  }

  lemma {:induction false} ExecAppend(s: State, a: seq<Step>, b: seq<Step>)
    ensures Exec(s, a + b) == Exec(Exec(s, a), b)
  {
    hide Apply, Enabled;
    if b == [] {
      assert a + b == a;
    } else {
      ExecAppend(s, a, b[..|b| - 1]);
      assert (a + b)[..|a + b| - 1] == a + b[..|b| - 1];
    }
  }

  lemma ExecStep(s: State, step: Step, after: seq<Step>)
    requires Enabled(s, step)
    ensures Exec(s, [step] + after) == Exec(Apply(s, step), after)
  {
    hide Apply, Enabled;
    OneMore(s, [], step);
    assert [] + [step] == [step];
    ExecAppend(s, [step], after);
  }

  lemma CollectPassed(s: State, id: nat) returns (after: seq<Step>)
    requires Between(s) && Passed(s, id)
    ensures Misplaced(Exec(s, after), id)
  {
    after := [Judge];
    OneMore(s, [], Judge);
    assert [] + [Judge] == after;
  }

  lemma CollectHeld(s: State, id: nat) returns (after: seq<Step>)
    requires Between(s) && s.hand.Held? && s.hand.job.id == id && s.hand.job.utt == s.utt
    ensures Misplaced(Exec(s, after), id)
  {
    var open_ := Apply(s, SetCancel(false));
    var rest := CollectPassed(Apply(open_, Test), id);
    ExecStep(open_, Test, rest);
    ExecStep(s, SetCancel(false), [Test] + rest);
    after := [SetCancel(false)] + ([Test] + rest);
  }

  /** What the pacer does next: finish the slice in hand, then take one up. */
  function NextTurn(s: State): Step {
    match s.hand
    case Empty => TakeJob
    case Held(_) => Test
    case Tested(_, _) => Judge
    case Judged(_) => Complete
    case Completed(_) => Release
  }

  function TurnsLeft(h: Hand): nat {
    match h
    case Empty => 0
    case Held(_) => 4
    case Tested(_, _) => 3
    case Judged(_) => 2
    case Completed(_) => 1
  }

  /** The pacer works the queue down to the slice, and the slice is collected. */
  lemma {:induction false} CollectQueued(s: State, id: nat, k: nat) returns (after: seq<Step>)
    requires Between(s) && k < |s.queue| && s.queue[k].id == id && s.queue[k].utt == s.utt
    ensures Misplaced(Exec(s, after), id)
    decreases k, TurnsLeft(s.hand)
  {
    var step := NextTurn(s);
    var next := Apply(s, step);
    assert Between(next);
    var rest;
    if step.TakeJob? && k == 0 {
      rest := CollectHeld(next, id);
    } else if step.TakeJob? {
      rest := CollectQueued(next, id, k - 1);
    } else {
      rest := CollectQueued(next, id, k);
    }
    ExecStep(s, step, rest);
    after := [step] + rest;
  }

  lemma WantedIsCollected(s: State, id: nat) returns (after: seq<Step>)
    requires Between(s) && Wanted(s, id)
    ensures Misplaced(Exec(s, after), id)
  {
    if Passed(s, id) {
      after := CollectPassed(s, id);
    } else if s.hand.Held? && s.hand.job.id == id && s.hand.job.utt == s.utt {
      after := CollectHeld(s, id);
    } else {
      var k :| 0 <= k < |s.queue| && s.queue[k].id == id && s.queue[k].utt == s.utt;
      after := CollectQueued(s, id, k);
    }
  }

  lemma UnwantedIsOutdated(s: State, id: nat)
    requires Inv(s) && id in s.accepted && id !in s.judged && !Wanted(s, id)
    ensures Outdated(s, id)
  {
    hide Ordered;
    AcceptedIsIn(s, id);
  }

  /** From the clearing of the buffer on until the next utterance is the current one, exactly the
      slices still wanted can end up in its buffer, and every other one accepted by then and not
      judged is counted stale once it is judged. */
  lemma OnlyTheWantedBleedOver(before: seq<Step>, id: nat)
    requires var s := Exec(Start(), before); s.buffer == s.utt + 1 && id in s.accepted && id !in s.judged
    ensures var s := Exec(Start(), before); (exists after :: Misplaced(Exec(s, after), id)) <==> Wanted(s, id)
    ensures var s := Exec(Start(), before); !Wanted(s, id) ==>
      forall after :: var t := Exec(s, after); id !in t.kept && (id in t.judged ==> id in t.stale)
  {
    hide Placed, Ordered, Outdated, Wanted;
    var s := Exec(Start(), before);
    StartKeeps();
    ExecKeeps(Start(), before);
    if Wanted(s, id) {
      var after := WantedIsCollected(s, id);
      assert Misplaced(Exec(s, after), id);
    } else {
      UnwantedIsOutdated(s, id);
      forall after ensures id !in Exec(s, after).kept && (id in Exec(s, after).judged ==> id in Exec(s, after).stale) {
        OutdatedIsStale(s, after, id);
      }
    }
  }

  lemma OutdatedIsStale(s: State, after: seq<Step>, id: nat)
    requires Inv(s) && Outdated(s, id)
    ensures var t := Exec(s, after); id !in t.kept && (id in t.judged ==> id in t.stale)
  {
    hide Placed, Ordered;
    OutdatedForever(s, after, id);
    ExecKeeps(s, after);
  }

  /** Seen from the clearing: a slice accepted before it and not judged ends up in the next
      utterance's buffer in some continuation exactly when it is still wanted. */
  lemma OnlyTheWantedOutliveTheClearing(before: seq<Step>, id: nat)
    requires var s := Exec(Start(), before); Enabled(s, ClearTimeline) && id in s.accepted && id !in s.judged
    ensures var s := Exec(Start(), before);
      (exists after :: Misplaced(Exec(Apply(s, ClearTimeline), after), id)) <==> Wanted(s, id)
  {
    OneMore(Start(), before, ClearTimeline);
    OnlyTheWantedBleedOver(before + [ClearTimeline], id);
  }

  /** Once the next utterance is the current one only a single slice is left: of those accepted
      before and not judged, the one that has just passed the test can still be collected, and
      every other one is counted stale once it is judged. */
  lemma OnlyThePassedBleedsOver(before: seq<Step>, id: nat)
    requires var s := Exec(Start(), before); Enabled(s, NextUtterance) && id in s.accepted && id !in s.judged
    ensures var s := Exec(Start(), before);
      (exists after :: id in Exec(Apply(s, NextUtterance), after).kept) <==> Passed(s, id)
    ensures var s := Exec(Start(), before);
      var kept := Exec(Apply(s, NextUtterance), [Judge]).kept;
      Passed(s, id) ==> id in kept && kept[id] == Home(s.hand.job.utt, s.utt + 1, s.hand.job.epoch)
    ensures var s := Exec(Start(), before); !Passed(s, id) ==>
      forall after :: var t := Exec(Apply(s, NextUtterance), after); id in t.judged ==> id in t.stale
  {
    hide Placed, Ordered;
    var s := Exec(Start(), before);
    StartKeeps();
    ExecKeeps(Start(), before);
    AcceptedIsIn(s, id);
    var next := Apply(s, NextUtterance);
    if Passed(s, id) {
      OneMore(next, [], Judge);
      assert [] + [Judge] == [Judge];
      assert id in Exec(next, [Judge]).kept;
    } else {
      assert Outdated(next, id);
      StepKeeps(s, NextUtterance);
      forall after ensures id !in Exec(next, after).kept && (id in Exec(next, after).judged ==> id in Exec(next, after).stale) {
        OutdatedIsStale(next, after, id);
      }
    }
  }

  lemma AcceptedIsIn(s: State, id: nat)
    requires Placed(s) && id in s.accepted
    ensures id < s.offered && id !in s.waiting
  {
  }

  lemma OneMore(s: State, steps: seq<Step>, step: Step)
    ensures var before := Exec(s, steps);
      Exec(s, steps + [step]) == if Enabled(before, step) then Apply(before, step) else before
  {
    assert (steps + [step])[..|steps|] == steps;
  }

  /** No new utterance and no cancellation. */
  predicate Undisturbed(steps: seq<Step>) {
    forall k :: 0 <= k < |steps| ==>
      !steps[k].ClearTimeline? && !steps[k].NextUtterance? && steps[k] != SetCancel(true)
  }

  /** The slice is on its way to the buffer it was stamped for, or is there. */
  ghost predicate OnItsWay(s: State, id: nat, home: Home) {
    && s.buffer == s.utt == home.utt == home.buffer && !s.cancel
    && id < s.offered && id !in s.waiting && id !in s.stale
    && (id in s.kept ==> s.kept[id] == home)
    && (forall k :: 0 <= k < |s.queue| && s.queue[k].id == id ==> s.queue[k] == Job(id, home.utt, home.epoch))
    && (s.hand.Held? && s.hand.job.id == id ==> s.hand.job == Job(id, home.utt, home.epoch))
    && (s.hand.Tested? && s.hand.job.id == id ==> s.hand.job == Job(id, home.utt, home.epoch) && s.hand.wanted)
  }

  lemma StaysOnItsWay(s: State, step: Step, id: nat, home: Home)
    requires OnItsWay(s, id, home) && Enabled(s, step)
    requires !step.ClearTimeline? && !step.NextUtterance? && step != SetCancel(true)
    ensures OnItsWay(Apply(s, step), id, home)
  {
  }

  lemma {:induction false} OnItsWayForever(s: State, steps: seq<Step>, id: nat, home: Home)
    requires OnItsWay(s, id, home) && Undisturbed(steps)
    ensures OnItsWay(Exec(s, steps), id, home)
  {
    hide OnItsWay, Apply, Enabled;
    if steps != [] {
      OnItsWayForever(s, steps[..|steps| - 1], id, home);
      if Enabled(Exec(s, steps[..|steps| - 1]), steps[|steps| - 1]) {
        StaysOnItsWay(Exec(s, steps[..|steps| - 1]), steps[|steps| - 1], id, home);
      }
    }
  }

  /** A slice that enters the queue is collected into its own utterance's buffer, for the restart it
      was stamped with, as long as nothing new begins and nothing is cancelled. */
  lemma UndisturbedIsCollected(before: seq<Step>, id: nat, after: seq<Step>)
    requires var s := Exec(Start(), before);
      id in s.waiting && |s.queue| < QCAP && s.buffer == s.utt && !s.cancel && Undisturbed(after)
    ensures var s := Exec(Start(), before);
      var t := Exec(Apply(s, Try(id)), after);
      id in t.accepted && (id in t.judged ==> id in t.kept && t.kept[id] == Home(s.utt, s.utt, s.epoch))
  {
    hide Ordered, Exec;
    var s := Exec(Start(), before);
    StartKeeps();
    ExecKeeps(Start(), before);
    StepKeeps(s, Try(id));
    var next := Apply(s, Try(id));
    EntersOnItsWay(s, id);
    OnItsWayForever(next, after, id, Home(s.utt, s.utt, s.epoch));
    ExecKeeps(next, after);
    HistoryGrows(next, after);
    assert id in next.accepted;
  }

  lemma EntersOnItsWay(s: State, id: nat)
    requires Inv(s) && id in s.waiting && |s.queue| < QCAP && s.buffer == s.utt && !s.cancel
    ensures OnItsWay(Apply(s, Try(id)), id, Home(s.utt, s.utt, s.epoch))
  {
    assert id !in s.accepted && id !in s.judged;
    QueuedAreAccepted(s);
  }

  lemma QueuedAreAccepted(s: State)
    requires Ordered(s)
    ensures forall k :: 0 <= k < |s.queue| ==> s.queue[k].id in s.accepted
    ensures s.hand.Held? || s.hand.Tested? ==> s.hand.job.id in s.accepted
    ensures forall x :: x in s.judged ==> x in s.accepted
  {
    forall k | 0 <= k < |s.queue| ensures s.queue[k].id in s.accepted {
      assert Ids(s.queue)[k] == s.queue[k].id;
    }
  }

  /** Whoever starts an utterance waits until the pacer is idle, and nothing is accepted while the
      buffer is cleared and the utterance is not yet the current one. */
  ghost predicate Orderly(s: State, step: Step) {
    match step
    case ClearTimeline => s.queue == [] && !s.busy
    case Try(_) => |s.queue| < QCAP ==> s.buffer == s.utt
    case _ => true
  }

  ghost predicate AllOrderly(steps: seq<Step>) {
    forall k :: 0 <= k < |steps| ==> Enabled(Exec(Start(), steps[..k]), steps[k]) ==> Orderly(Exec(Start(), steps[..k]), steps[k])
  }

  /** Everything in the pacer is of the current utterance, whose buffer is being filled. */
  ghost predicate AllCurrent(s: State) {
    && (s.busy <==> !s.hand.Empty?)
    && (s.queue != [] || !s.hand.Empty? ==> s.buffer == s.utt)
    && (forall k :: 0 <= k < |s.queue| ==> s.queue[k].utt == s.utt)
    && (!s.hand.Empty? ==> s.hand.job.utt == s.utt)
    && (forall x :: x in s.kept ==> s.kept[x].utt == s.kept[x].buffer)
  }

  lemma CurrentStays(s: State, step: Step)
    requires AllCurrent(s) && Enabled(s, step) && Orderly(s, step)
    ensures AllCurrent(Apply(s, step))
  {
  }

  /** In such a run every slice is collected into the buffer of the utterance it was stamped for. */
  lemma {:induction false} NothingBleedsOver(steps: seq<Step>)
    requires AllOrderly(steps)
    ensures var s := Exec(Start(), steps);
      AllCurrent(s) && forall x :: x in s.kept ==> s.kept[x].utt == s.kept[x].buffer
  {
    hide Apply, Enabled, Orderly;
    if steps != [] {
      var front := steps[..|steps| - 1];
      assert forall k :: 0 <= k < |front| ==> front[..k] == steps[..k];
      NothingBleedsOver(front);
      if Enabled(Exec(Start(), front), steps[|steps| - 1]) {
        CurrentStays(Exec(Start(), front), steps[|steps| - 1]);
      }
    }
  }

  const HASTY := [Offer, Try(0), TakeJob, Test, ClearTimeline, NextUtterance, Judge]

  /** Without that wait a slice can be collected into the next utterance's buffer. */
  lemma HasteBleedsOver()
    ensures Exec(Start(), HASTY).kept == map[0 := Home(0, 1, 0)]
  {
    hide Exec;
    var s0 := Start();
    NoSteps(s0);
    OneMore(s0, [], Offer);
    OneMore(s0, [] + [Offer], Try(0));
    OneMore(s0, [] + [Offer] + [Try(0)], TakeJob);
    OneMore(s0, [] + [Offer] + [Try(0)] + [TakeJob], Test);
    var tested := [] + [Offer] + [Try(0)] + [TakeJob] + [Test];
    assert Exec(s0, tested).hand == Tested(Job(0, 0, 0), true);
    OneMore(s0, tested, ClearTimeline);
    OneMore(s0, tested + [ClearTimeline], NextUtterance);
    OneMore(s0, tested + [ClearTimeline] + [NextUtterance], Judge);
    assert tested + [ClearTimeline] + [NextUtterance] + [Judge] == HASTY;
  }

  const TWO_OFFERED := [Offer, Try(0), Offer, Try(1), ClearTimeline]
  const TWO_JUDGED := [TakeJob, Test, Judge, Complete, Release, TakeJob, Test, Judge, NextUtterance]

  /** Nor does it take a slice that has passed the test: two that wait in the queue when the buffer
      is cleared are tested against the old utterance and collected into the next one's buffer. */
  lemma QueuedSlicesBleedOver()
    ensures Exec(Start(), TWO_OFFERED + TWO_JUDGED).kept == map[0 := Home(0, 1, 0), 1 := Home(0, 1, 0)]
  {
    var s := TwoOffered();
    var both := TwoJudged(s);
    ExecAppend(Start(), TWO_OFFERED, TWO_JUDGED);
  }

  lemma TwoOffered() returns (s: State)
    ensures s == Exec(Start(), TWO_OFFERED) == Start().(queue := [Job(0, 0, 0), Job(1, 0, 0)], offered := 2, buffer := 1, accepted := [0, 1])
  {
    hide Exec;
    var s0 := Start();
    NoSteps(s0);
    OneMore(s0, [], Offer);
    OneMore(s0, [] + [Offer], Try(0));
    OneMore(s0, [] + [Offer] + [Try(0)], Offer);
    OneMore(s0, [] + [Offer] + [Try(0)] + [Offer], Try(1));
    var offered := [] + [Offer] + [Try(0)] + [Offer] + [Try(1)];
    assert Exec(s0, offered).waiting == map[];
    OneMore(s0, offered, ClearTimeline);
    assert offered + [ClearTimeline] == TWO_OFFERED;
    s := Exec(s0, TWO_OFFERED);
  }

  lemma TwoJudged(s: State) returns (t: State)
    requires s == Start().(queue := [Job(0, 0, 0), Job(1, 0, 0)], offered := 2, buffer := 1, accepted := [0, 1])
    ensures t == Exec(s, TWO_JUDGED) && t.kept == map[0 := Home(0, 1, 0), 1 := Home(0, 1, 0)]
  {
    hide Exec;
    NoSteps(s);
    OneMore(s, [], TakeJob);
    OneMore(s, [] + [TakeJob], Test);
    OneMore(s, [] + [TakeJob] + [Test], Judge);
    OneMore(s, [] + [TakeJob] + [Test] + [Judge], Complete);
    OneMore(s, [] + [TakeJob] + [Test] + [Judge] + [Complete], Release);
    var one := [] + [TakeJob] + [Test] + [Judge] + [Complete] + [Release];
    assert Exec(s, one).queue == [Job(1, 0, 0)] && Exec(s, one).kept == map[0 := Home(0, 1, 0)];
    OneMore(s, one, TakeJob);
    OneMore(s, one + [TakeJob], Test);
    OneMore(s, one + [TakeJob] + [Test], Judge);
    OneMore(s, one + [TakeJob] + [Test] + [Judge], NextUtterance);
    assert one + [TakeJob] + [Test] + [Judge] + [NextUtterance] == TWO_JUDGED;
    t := Exec(s, TWO_JUDGED);
  }

  lemma NoSteps(s: State)
    ensures Exec(s, []) == s
  {
  }
}
