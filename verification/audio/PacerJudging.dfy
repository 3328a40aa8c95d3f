/** What becomes of a slice, told from the run: when it entered, when it was tested, where it went. */
module PacerJudging {
  import opened Wrappers
  import opened PacerRing
  import opened Pacer

  // ---- the run's own counts

  /** How many buffers were cleared, utterances and restarts begun, and the last word on cancelling. */
  datatype Clock = Clock(utts: nat, buffers: nat, epochs: nat, cancel: bool)

  function ClockAfter(steps: seq<Step>): Clock {
    if steps == [] then Clock(0, 0, 0, false)
    else
      var c := ClockAfter(steps[..|steps| - 1]);
      match steps[|steps| - 1]
      case ClearTimeline => if c.buffers == c.utts then c.(buffers := c.buffers + 1) else c
      case NextUtterance => if c.buffers == c.utts + 1 then c.(utts := c.utts + 1) else c
      case NextEpoch => c.(epochs := c.epochs + 1)
      case SetCancel(on) => c.(cancel := on)
      case _ => c
  }

  /** The utterance and restart a slice entered under, what its test said, and the buffer there was
      when the test was acted on. */
  datatype Story = Story(stamp: Option<(nat, nat)>, verdict: Option<bool>, buffer: Option<nat>)

  function StoryOf(steps: seq<Step>, id: nat): Story {
    if steps == [] then Story(None, None, None)
    else
      var front := steps[..|steps| - 1];
      Continued(StoryOf(front, id), Exec(Start(), front), ClockAfter(front), steps[|steps| - 1], id)
  }

  function Continued(y: Story, s: State, c: Clock, step: Step, id: nat): Story {
    match step
    case Try(i) => if i == id && id in s.waiting && |s.queue| < 512 then y.(stamp := Some((c.utts, c.epochs))) else y
    case Test =>
      if s.hand.Held? && s.hand.job.id == id then y.(verdict := Some(!c.cancel && y.stamp.Some? && y.stamp.value.0 == c.utts)) else y
    case Judge => if s.hand.Tested? && s.hand.job.id == id then y.(buffer := Some(c.buffers)) else y
    case _ => y
  }

  // ---- they agree with the state

  predicate OnTime(s: State, c: Clock) {
    s.utt == c.utts && s.buffer == c.buffers && s.epoch == c.epochs && s.cancel == c.cancel
  }

  lemma ClockStep(s: State, step: Step, steps: seq<Step>)
    requires OnTime(s, ClockAfter(steps))
    ensures OnTime(if Enabled(s, step) then Apply(s, step) else s, ClockAfter(steps + [step]))
  {
    assert (steps + [step])[..|steps|] == steps;
  }

  lemma {:induction false} ClockIsKept(steps: seq<Step>)
    ensures OnTime(Exec(Start(), steps), ClockAfter(steps))
  {
    hide Apply, Enabled, OnTime, ClockAfter;
    if steps == [] {
      ClockStarts();
    } else {
      var front, step := steps[..|steps| - 1], steps[|steps| - 1];
      ClockIsKept(front);
      ClockStep(Exec(Start(), front), step, front);
      assert front + [step] == steps;
    }
  }

  lemma ClockStarts()
    ensures OnTime(Start(), ClockAfter([]))
  {
  }

  predicate StampedAs(j: Job, y: Story) {
    y.stamp == Some((j.utt, j.epoch))
  }

  ghost predicate Tells(s: State, y: Story, id: nat) {
    && (id in s.accepted <==> y.stamp.Some?)
    && (y.stamp.None? ==> y.verdict.None?)
    && (forall k :: 0 <= k < |s.queue| && s.queue[k].id == id ==> StampedAs(s.queue[k], y) && y.verdict.None?)
    && (s.hand.Held? && s.hand.job.id == id ==> StampedAs(s.hand.job, y) && y.verdict.None?)
    && (s.hand.Tested? && s.hand.job.id == id ==> StampedAs(s.hand.job, y) && y.verdict == Some(s.hand.wanted) && y.buffer.None?)
    && (y.verdict.None? ==> y.buffer.None?)
    && (id in s.kept ==> y.verdict == Some(true))
    && (id in s.stale ==> y.verdict == Some(false))
    && (id in s.kept || id in s.stale <==> y.buffer.Some?)
    && (id in s.kept ==> y.stamp.Some? && s.kept[id] == Home(y.stamp.value.0, y.buffer.value, y.stamp.value.1))
  }

  /** The slice in hand is neither queued nor judged. */
  lemma HandIsApart(s: State)
    requires Inv(s) && (s.hand.Held? || s.hand.Tested?)
    ensures var id := s.hand.job.id;
      && (forall k :: 0 <= k < |s.queue| ==> s.queue[k].id != id)
      && id !in s.kept && id !in s.stale
  {
    hide Placed, Stamped;
    var id, n := s.hand.job.id, |s.judged|;
    assert s.accepted[n] == id;
    forall k | 0 <= k < |s.queue| ensures s.queue[k].id != id {
      assert Ids(s.queue)[k] == s.accepted[n + 1 + k];
    }
    forall m | 0 <= m < n ensures s.judged[m] != id {
      assert s.accepted[m] == s.judged[m];
    }
  }

  lemma NewcomerIsApart(s: State, id: nat)
    requires Inv(s) && id !in s.accepted
    ensures forall k :: 0 <= k < |s.queue| ==> s.queue[k].id != id
    ensures (s.hand.Held? || s.hand.Tested?) ==> s.hand.job.id != id
    ensures id !in s.kept && id !in s.stale
  {
    hide Placed, Stamped;
    forall k | 0 <= k < |s.queue| ensures s.queue[k].id in s.accepted {
      assert Ids(s.queue)[k] in s.accepted;
    }
  }

  lemma OwnTryTells(s: State, y: Story, c: Clock, id: nat)
    requires Inv(s) && Tells(s, y, id) && OnTime(s, c) && id in s.waiting
    ensures Tells(Tried(s, id), Continued(y, s, c, Try(id), id), id)
  {
    PlacesApart(s, id);
    NewcomerIsApart(s, id);
    hide Inv;
  }

  lemma OtherTryTells(s: State, y: Story, c: Clock, i: nat, id: nat)
    requires Tells(s, y, id) && i in s.waiting && i != id
    ensures Tells(Tried(s, i), y, id) && Continued(y, s, c, Try(i), id) == y
  {
    OtherTry(s, i, id);
  }

  lemma TestTells(s: State, y: Story, c: Clock, id: nat)
    requires Inv(s) && Tells(s, y, id) && OnTime(s, c) && s.hand.Held?
    ensures Tells(Apply(s, Test), Continued(y, s, c, Test, id), id)
  {
    HandIsApart(s);
    hide Inv;
  }

  lemma JudgeTells(s: State, y: Story, c: Clock, id: nat)
    requires Inv(s) && Tells(s, y, id) && OnTime(s, c) && s.hand.Tested?
    ensures Tells(Apply(s, Judge), Continued(y, s, c, Judge, id), id)
  {
    HandIsApart(s);
    hide Inv;
  }

  lemma QuietTells(s: State, y: Story, c: Clock, step: Step, id: nat)
    requires Tells(s, y, id) && Enabled(s, step) && !step.Try? && !step.Test? && !step.Judge?
    ensures Tells(Apply(s, step), y, id) && Continued(y, s, c, step, id) == y
  {
  }

  lemma StepTells(s: State, y: Story, c: Clock, step: Step, id: nat)
    requires Inv(s) && Tells(s, y, id) && OnTime(s, c) && Enabled(s, step)
    ensures Tells(Apply(s, step), Continued(y, s, c, step, id), id)
  {
    hide Inv, Tells, Continued, OnTime;
    match step
    case Try(i) => if i == id { OwnTryTells(s, y, c, id); } else { OtherTryTells(s, y, c, i, id); }
    case Test => TestTells(s, y, c, id);
    case Judge => JudgeTells(s, y, c, id);
    case _ => QuietTells(s, y, c, step, id);
  }

  lemma IdleTells(s: State, y: Story, c: Clock, step: Step, id: nat)
    requires !Enabled(s, step)
    ensures Continued(y, s, c, step, id) == y
  {
  }

  lemma {:induction false} StoryIsTold(steps: seq<Step>, id: nat)
    ensures Tells(Exec(Start(), steps), StoryOf(steps, id), id)
  {
    hide Inv, Tells, Continued, OnTime, Apply, Enabled, ClockAfter;
    if steps == [] {
      NothingTold(id);
    } else {
      var front, step := steps[..|steps| - 1], steps[|steps| - 1];
      var s, y, c := Exec(Start(), front), StoryOf(front, id), ClockAfter(front);
      StoryIsTold(front, id);
      ClockIsKept(front);
      StartKeeps();
      ExecKeeps(Start(), front);
      if Enabled(s, step) { StepTells(s, y, c, step, id); } else { IdleTells(s, y, c, step, id); }
    }
  }

  lemma NothingTold(id: nat)
    ensures Tells(Exec(Start(), []), StoryOf([], id), id)
  {
  }

  /** A slice is collected exactly when it was tested in the utterance it entered under and cancelling
      was off, and then with what it was stamped with into the buffer there was; one that was judged
      and fails that test is stale. */
  lemma JudgedByItsStory(steps: seq<Step>, id: nat)
    ensures var (s, y) := (Exec(Start(), steps), StoryOf(steps, id));
      && (id in s.accepted <==> y.stamp.Some?)
      && (id in s.judged <==> y.buffer.Some?)
      && (id in s.kept <==> y.buffer.Some? && y.verdict == Some(true))
      && (id in s.stale <==> y.buffer.Some? && y.verdict == Some(false))
      && (id in s.kept ==> y.stamp.Some? && s.kept[id] == Home(y.stamp.value.0, y.buffer.value, y.stamp.value.1))
  {
    StoryIsTold(steps, id);
    CompletedOnceInOrder(steps);
  }
}
