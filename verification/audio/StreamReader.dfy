/** The streaming reader: samples handed out while the timeline is still being collected. */
module StreamReader {
  import opened Wrappers
  import opened Timeline
  import opened TimelineLaws

  /** One sample, clamped and truncated towards zero to 16 bits. */
  function Clip(v: real): (r: int)
    ensures -32767 <= r <= 32767
  {
    var w := if v > 1.0 then 1.0 else if v < -1.0 then -1.0 else v;
    var scaled := w * 32767.0;
    if scaled >= 0.0 then scaled.Floor else -(-scaled).Floor
  }

  /** What a sample becomes: the scaled value with its fraction cut off, the sign kept, and the
      ends of the range for whatever lies outside it. */
  lemma ClipIsTruncated(v: real)
    ensures v >= 1.0 ==> Clip(v) == 32767
    ensures v <= -1.0 ==> Clip(v) == -32767
    ensures 0.0 <= v <= 1.0 ==> Clip(v) as real <= 32767.0 * v < Clip(v) as real + 1.0
    ensures Clip(-v) == -Clip(v)
  {
  }

  function Clipped(s: seq<real>): (r: seq<int>)
    ensures |r| == |s|
  {
    seq(|s|, i requires 0 <= i < |s| => Clip(s[i]))
  }

  /** Where a pull stands: it reads whether the utterance is over, then how far the audio
      reaches, then one sample after another while the collector runs on. */
  datatype Phase = Idle | Looked(over: bool, room: nat) | Copying(upTo: nat)

  /** Where the collector stands inside a slice: silence up to the slice's position first, then
      its samples one by one, and only then the new end. */
  datatype Writer = Resting | Filling(pos: nat, data: seq<real>) | Writing(pos: nat, data: seq<real>, done: nat)

  /** `begun` is the history of the slices the collector has started on. */
  datatype State = State(
    line: Line, writer: Writer, begun: seq<(Slice, nat)>, over: bool, pos: nat, pulled: seq<int>, phase: Phase)

  datatype Step =
    | Begin(slice: Slice, epoch: nat) | Write | Finish
    | Look(room: nat) | Measure | CopyOne

  predicate Enabled(s: State, step: Step) {
    match step
    case Begin(_, _) => !s.over && s.writer.Resting? && Sane(s.line)
    case Write => !s.writer.Resting?
    case Finish => !s.over && s.writer.Resting?
    case Look(room) => s.phase.Idle? && room > 0
    case Measure => s.phase.Looked?
    case CopyOne => s.phase.Copying? && s.pos < s.phase.upTo && s.pos < |s.line.pcm|
  }

  /** The newest `lookbehind` frames are held back until the utterance is over. */
  function Reach(n: nat, over: bool, lookbehind: nat): nat {
    if over then n else if n > lookbehind then n - lookbehind else 0
  }

  predicate Gap(t: Line, pos: nat) { t.n < pos < |t.pcm| }

  /** One store of the collector, or one move of its end. */
  function Written(t: Line, w: Writer): (Line, Writer)
    requires !w.Resting?
  {
    match w
    case Filling(pos, data) =>
      if Gap(t, pos) then (t.(pcm := t.pcm[t.n := 0.0], n := t.n + 1), w) else (t, Writing(pos, data, 0))
    case Writing(pos, data, done) =>
      if done < |data| && pos + done < |t.pcm| then (t.(pcm := t.pcm[pos + done := data[done]]), Writing(pos, data, done + 1))
      else
        var end := pos + |data|;
        (t.(n := if end <= t.n then t.n else if end < |t.pcm| then end else |t.pcm|), Resting)
  }

  /** Taking a slice up: the clock at once, the buffer in the steps after. */
  function Begun(t: Line, s: Slice, epoch: nat): (Line, Writer)
    requires Sane(t)
  {
    if !s.listed || s.frames == 0 then (t, Resting)
    else
      var t1 := Timed(t, s, epoch);
      (t1, if Carries(s) then Filling(Position(t1, s.timed), Payload(s)) else Resting)
  }

  function Apply(s: State, step: Step, lookbehind: nat): State
    requires Enabled(s, step)
  {
    match step
    case Begin(slice, epoch) =>
      var (line, writer) := Begun(s.line, slice, epoch);
      s.(line := line, writer := writer, begun := s.begun + [(slice, epoch)])
    case Write =>
      var (line, writer) := Written(s.line, s.writer);
      s.(line := line, writer := writer)
    case Finish => s.(over := true)
    case Look(room) => s.(phase := Looked(s.over, room))
    case Measure =>
      var end := Reach(s.line.n, s.phase.over, lookbehind);
      var avail := if end > s.pos then end - s.pos else 0;
      s.(phase := if avail == 0 then Idle else Copying(s.pos + if avail < s.phase.room then avail else s.phase.room))
    case CopyOne =>
      var next := s.(pulled := s.pulled + [Clip(s.line.pcm[s.pos])], pos := s.pos + 1);
      if next.pos == s.phase.upTo then next.(phase := Idle) else next
  }

  function Start(pcm: seq<real>, origin: real): State { State(Cleared(pcm, origin), Resting, [], false, 0, [], Idle) }

  function Exec(s: State, steps: seq<Step>, lookbehind: nat): State {
    if steps == [] then s
    else
      var before := Exec(s, steps[..|steps| - 1], lookbehind);
      var step := steps[|steps| - 1];
      if Enabled(before, step) then Apply(before, step, lookbehind) else before
  }

  // ---- the collector's stores make up what collecting a slice comes to

  /** What the buffer will be once the slice in hand is written. */
  function Settling(t: Line, w: Writer): Line {
    match w
    case Resting => t
    case Filling(pos, data) => Placed(t, pos, data)
    case Writing(pos, data, _) => Placed(t, pos, data)
  }

  /** Frames already written are in place, and no silence is left to fill. */
  ghost predicate WriterOk(t: Line, w: Writer) {
    && Sane(t)
    && (w.Writing? ==>
          && !Gap(t, w.pos) && w.done <= |w.data| && (w.done > 0 ==> w.pos + w.done <= |t.pcm|)
          && forall i :: 0 <= i < w.done ==> t.pcm[w.pos + i] == w.data[i])
  }

  lemma WriteSettles(t: Line, w: Writer)
    requires !w.Resting? && WriterOk(t, w)
    ensures var (t', w') := Written(t, w);
      && WriterOk(t', w') && Settling(t', w') == Settling(t, w)
      && t.n <= t'.n && |t'.pcm| == |t.pcm|
      && forall i :: 0 <= i < |t.pcm| && i < t.n && i < w.pos ==> t'.pcm[i] == t.pcm[i]
  {
    hide Placed;
    var (t', w') := Written(t, w);
    if w.Filling? && Gap(t, w.pos) {
      FillSettles(t, w.pos, w.data);
    } else if w.Writing? && w'.Writing? {
      SampleSettles(t, w.pos, w.data, w.done);
    } else if w.Writing? {
      EndSettles(t, w.pos, w.data, w.done);
    }
  }

  lemma EndSettles(t: Line, pos: nat, data: seq<real>, done: nat)
    requires !Gap(t, pos) && done <= |data| && (done == |data| || |t.pcm| <= pos + done)
    requires forall i :: 0 <= i < done && pos + i < |t.pcm| ==> t.pcm[pos + i] == data[i]
    ensures Placed(t, pos, data) ==
      t.(n := if pos + |data| <= t.n then t.n else if pos + |data| < |t.pcm| then pos + |data| else |t.pcm|)
  {
    assert Placed(t, pos, data).pcm == t.pcm by {
      forall i | 0 <= i < |t.pcm| ensures Placed(t, pos, data).pcm[i] == t.pcm[i] {
        if pos <= i < pos + |data| { assert t.pcm[pos + (i - pos)] == data[i - pos]; }
      }
    }
  }

  lemma FillSettles(t: Line, pos: nat, data: seq<real>)
    requires Gap(t, pos)
    ensures Placed(t.(pcm := t.pcm[t.n := 0.0], n := t.n + 1), pos, data) == Placed(t, pos, data)
  {
    assert Placed(t.(pcm := t.pcm[t.n := 0.0], n := t.n + 1), pos, data).pcm == Placed(t, pos, data).pcm;
  }

  lemma SampleSettles(t: Line, pos: nat, data: seq<real>, i: nat)
    requires !Gap(t, pos) && i < |data| && pos + i < |t.pcm|
    ensures Placed(t.(pcm := t.pcm[pos + i := data[i]]), pos, data) == Placed(t, pos, data)
  {
    assert Placed(t.(pcm := t.pcm[pos + i := data[i]]), pos, data).pcm == Placed(t, pos, data).pcm;
  }

  lemma BeginSettles(t: Line, s: Slice, epoch: nat)
    requires Sane(t)
    ensures var (t', w) := Begun(t, s, epoch);
      && WriterOk(t', w) && !w.Writing? && Settling(t', w) == Collected(t, s, epoch)
      && t'.n == t.n && t'.pcm == t.pcm
  {
    if s.listed && s.frames > 0 {
      TimedKeeps(t, s, epoch);
    }
  }

  // ---- what has been handed out

  /** The slice does not write more than `lookbehind` frames behind the audio's end. */
  predicate WithinReach(t: Line, s: Slice, epoch: nat, lookbehind: nat)
    requires Sane(t)
  {
    s.listed && s.frames > 0 ==> t.n <= Position(Timed(t, s, epoch), s.timed) + lookbehind
  }

  /** Every slice taken up in the run stays within reach. */
  ghost predicate Tame(s: State, steps: seq<Step>, lookbehind: nat)
    decreases |steps|
  {
    steps == [] ||
    (var front := steps[..|steps| - 1];
     var before := Exec(s, front, lookbehind);
     var step := steps[|steps| - 1];
     Tame(s, front, lookbehind) &&
     (step.Begin? && Enabled(before, step) ==> WithinReach(before.line, step.slice, step.epoch, lookbehind)))
  }

  /** What has been handed out is the clipped beginning of the buffer as it is now, and the
      collector is past it. */
  ghost predicate Inv(s: State, start: Line, lookbehind: nat) {
    && Sane(start) && WriterOk(s.line, s.writer) && Settling(s.line, s.writer) == Gathered(start, s.begun)
    && (!s.writer.Resting? ==> !s.over && s.line.n <= s.writer.pos + lookbehind)
    && s.pos <= Reach(s.line.n, s.over, lookbehind)
    && (s.phase.Looked? ==> s.phase.room > 0 && (s.phase.over ==> s.over))
    && (s.phase.Copying? ==> s.pos < s.phase.upTo <= Reach(s.line.n, s.over, lookbehind))
    && s.pulled == Clipped(s.line.pcm[..s.pos])
  }

  lemma StepKeeps(s: State, start: Line, step: Step, lookbehind: nat)
    requires Inv(s, start, lookbehind) && Enabled(s, step)
    requires step.Begin? ==> WithinReach(s.line, step.slice, step.epoch, lookbehind)
    ensures Inv(Apply(s, step, lookbehind), start, lookbehind)
  {
    hide Clip, Placed, Clipped, Gathered, Begun, Written;
    match step
    case Begin(_, _) => BeginKeeps(s, start, step, lookbehind);
    case Write => WriteKeeps(s, start, lookbehind);
    case CopyOne => ClippedPush(s.line.pcm, s.pos);
    case _ =>
  }

  lemma BeginKeeps(s: State, start: Line, step: Step, lookbehind: nat)
    requires Inv(s, start, lookbehind) && step.Begin? && Enabled(s, step)
    requires WithinReach(s.line, step.slice, step.epoch, lookbehind)
    ensures Inv(Apply(s, step, lookbehind), start, lookbehind)
  {
    hide Clip, Placed, Clipped, Collected, Timed, Position, Payload;
    BeginSettles(s.line, step.slice, step.epoch);
    OneGathered(start, s.begun, (step.slice, step.epoch));
  }

  lemma WriteKeeps(s: State, start: Line, lookbehind: nat)
    requires Inv(s, start, lookbehind) && !s.writer.Resting?
    ensures Inv(Apply(s, Write, lookbehind), start, lookbehind)
  {
    hide Clip, Placed, Clipped, Gathered;
    WriteSettles(s.line, s.writer);
    var s' := Apply(s, Write, lookbehind);
    assert s'.line.pcm[..s.pos] == s.line.pcm[..s.pos];
  }

  lemma ClippedPush(pcm: seq<real>, i: nat)
    requires i < |pcm|
    ensures Clipped(pcm[..i + 1]) == Clipped(pcm[..i]) + [Clip(pcm[i])]
  {
  }

  /** However pulls and the collector's single stores interleave, the samples handed out are the
      clipped beginning of the buffer; a pull that finds nothing more after the end has handed out
      all of it; and between slices the buffer is what the slices so far come to. */
  lemma {:induction false} PulledIsPrefix(pcm: seq<real>, origin: real, steps: seq<Step>, lookbehind: nat)
    requires Tame(Start(pcm, origin), steps, lookbehind)
    ensures var s := Exec(Start(pcm, origin), steps, lookbehind);
      && Inv(s, Cleared(pcm, origin), lookbehind)
      && s.pos <= |s.line.pcm| && s.pulled == Clipped(s.line.pcm[..s.pos])
      && (s.writer.Resting? ==> s.line == Gathered(Cleared(pcm, origin), s.begun))
      && (Enabled(s, Measure) && s.phase.over && Apply(s, Measure, lookbehind).phase.Idle? ==>
            s.pulled == Clipped(s.line.pcm[..s.line.n]))
  {
    hide Clipped, WithinReach, Gathered, Placed;
    if steps == [] {
      assert Inv(Start(pcm, origin), Cleared(pcm, origin), lookbehind) by {
        assert pcm[..0] == [];
        EmptyClipped();
        NoneGathered(Cleared(pcm, origin));
      }
    } else {
      var front := steps[..|steps| - 1];
      PulledIsPrefix(pcm, origin, front, lookbehind);
      var before := Exec(Start(pcm, origin), front, lookbehind);
      if Enabled(before, steps[|steps| - 1]) {
        StepKeeps(before, Cleared(pcm, origin), steps[|steps| - 1], lookbehind);
      }
    }
  }

  /** How many frames a pull can have: all there are once the utterance is over, and all but the
      newest `lookbehind` before that. */
  function Available(s: State, room: nat, lookbehind: nat): nat {
    var held := if s.over then 0 else lookbehind;
    if s.line.n <= s.pos + held then 0
    else if s.line.n - held - s.pos < room then s.line.n - held - s.pos
    else room
  }

  function Copies(k: nat): seq<Step> {
    if k == 0 then [] else Copies(k - 1) + [CopyOne]
  }

  /** A pull that is not disturbed hands out all there is within the lookbehind, up to its room,
      and is then over. */
  lemma PullTakesAll(s: State, start: Line, room: nat, lookbehind: nat)
    requires Inv(s, start, lookbehind) && s.phase.Idle? && room > 0
    ensures var (k, s') := (Available(s, room, lookbehind), Exec(s, [Look(room), Measure] + Copies(Available(s, room, lookbehind)), lookbehind));
      && s.pos + k <= |s.line.pcm|
      && s' == s.(pulled := s.pulled + Clipped(s.line.pcm[s.pos..s.pos + k]), pos := s.pos + k)
  {
    hide Clipped, Clip, Gathered, Placed;
    var k := Available(s, room, lookbehind);
    var looked := s.(phase := Looked(s.over, room));
    LookAndMeasure(s, room, lookbehind);
    if k == 0 {
      EmptyClipped();
      assert [Look(room), Measure] + Copies(0) == [Look(room), Measure];
      assert s.line.pcm[s.pos..s.pos] == [];
      assert s.pulled + [] == s.pulled;
    } else {
      CopiesCopy(s, [Look(room), Measure], s.(phase := Copying(s.pos + k)), k, k, lookbehind);
    }
  }

  lemma LookAndMeasure(s: State, room: nat, lookbehind: nat)
    requires s.phase.Idle? && room > 0
    ensures var k := Available(s, room, lookbehind);
      Exec(s, [Look(room), Measure], lookbehind) == s.(phase := if k == 0 then Idle else Copying(s.pos + k))
  {
    var steps := [Look(room), Measure];
    assert steps[..1] == [Look(room)] && steps[..1][..0] == [];
    assert Exec(s, steps[..1], lookbehind) == s.(phase := Looked(s.over, room));
  }

  /** A pull of `all` frames after `k` of them. */
  function Copied(t: State, all: nat, k: nat): State
    requires t.pos + all <= |t.line.pcm| && k <= all
  {
    t.(pulled := t.pulled + Clipped(t.line.pcm[t.pos..t.pos + k]), pos := t.pos + k, phase := if k == all then Idle else t.phase)
  }

  lemma CopiedOneMore(t: State, all: nat, k: nat, lookbehind: nat)
    requires t.phase == Copying(t.pos + all) && t.pos + all <= |t.line.pcm| && k < all
    ensures Enabled(Copied(t, all, k), CopyOne) && Apply(Copied(t, all, k), CopyOne, lookbehind) == Copied(t, all, k + 1)
  {
    hide Clip;
    assert Clipped(t.line.pcm[t.pos..t.pos + k + 1]) == Clipped(t.line.pcm[t.pos..t.pos + k]) + [Clip(t.line.pcm[t.pos + k])];
    assert t.pulled + Clipped(t.line.pcm[t.pos..t.pos + k + 1])
        == t.pulled + Clipped(t.line.pcm[t.pos..t.pos + k]) + [Clip(t.line.pcm[t.pos + k])];
  }

  lemma NoneCopied(t: State, all: nat)
    requires t.pos + all <= |t.line.pcm| && 0 < all
    ensures Copied(t, all, 0) == t
  {
    EmptyClipped();
    assert t.line.pcm[t.pos..t.pos] == [] && t.pulled + [] == t.pulled;
  }

  lemma {:induction false} CopiesCopy(s: State, first: seq<Step>, t: State, k: nat, all: nat, lookbehind: nat)
    requires Exec(s, first, lookbehind) == t && t.phase == Copying(t.pos + all) && k <= all && 0 < all && t.pos + all <= |t.line.pcm|
    ensures Exec(s, first + Copies(k), lookbehind) == Copied(t, all, k)
  {
    hide Exec, Copied, Apply, Enabled;
    if k == 0 {
      assert first + Copies(0) == first;
      NoneCopied(t, all);
    } else {
      CopiesCopy(s, first, t, k - 1, all, lookbehind);
      CopiedOneMore(t, all, k - 1, lookbehind);
      ExecMore(s, first + Copies(k - 1), CopyOne, lookbehind);
      assert first + Copies(k) == first + Copies(k - 1) + [CopyOne];
    }
  }

  lemma EmptyClipped()
    ensures Clipped([]) == []
  {
  }

  lemma {:induction false} PulledOnlyGrows(s: State, steps: seq<Step>, more: seq<Step>, lookbehind: nat)
    ensures Exec(s, steps, lookbehind).pulled <= Exec(s, steps + more, lookbehind).pulled
  {
    if more == [] {
      assert steps + more == steps;
    } else {
      PulledOnlyGrows(s, steps, more[..|more| - 1], lookbehind);
      assert (steps + more)[..|steps + more| - 1] == steps + more[..|more| - 1];
    }
  }

  /** What was handed out at any time is the beginning of what the buffer comes to later. */
  lemma HandedOutIsFinal(pcm: seq<real>, origin: real, steps: seq<Step>, more: seq<Step>, lookbehind: nat)
    requires Tame(Start(pcm, origin), steps + more, lookbehind)
    ensures var s, end := Exec(Start(pcm, origin), steps, lookbehind), Exec(Start(pcm, origin), steps + more, lookbehind);
      end.line.n <= |end.line.pcm| && s.pulled <= Clipped(end.line.pcm[..end.line.n])
  {
    PulledOnlyGrows(Start(pcm, origin), steps, more, lookbehind);
    PulledIsPrefix(pcm, origin, steps + more, lookbehind);
    var end := Exec(Start(pcm, origin), steps + more, lookbehind);
    assert Clipped(end.line.pcm[..end.pos]) <= Clipped(end.line.pcm[..end.line.n]);
  }

  /** A run contiguous within each epoch never writes more than one frame back, the kick. */
  lemma ContiguousWithinReach(pcm: seq<real>, origin: real, front: seq<Epoch>, e: Epoch, k: nat)
    requires WellFormed(front + [e]) && |Joined(front + [e])| <= |pcm| && k < |e.chunks|
    ensures var t := CollectedChunks(CollectedEpochs(Cleared(pcm, origin), front), e, k);
      WithinReach(t, SliceOf(e, k), e.id, 1)
  {
    var es := front + [e];
    assert es[..|front|] == front && es[|front|] == e;
    JoinedGrows(es);
    assert WellFormed(front) by {
      assert forall j :: 0 <= j < |front| ==> front[j] == es[j];
    }
    TimelineIsConcatenation(pcm, origin, front);
    var t := CollectedEpochs(Cleared(pcm, origin), front);
    RestartAfter(t, front, e);
    if k > 0 {
      ChunksJoin(t, e, k, Settled(front));
      FlatGrows(e.chunks, k + 1);
      NextPosition(CollectedChunks(t, e, k), e, k, Settled(front));
    } else {
      FirstPosition(t, e, Settled(front));
    }
  }

  lemma FirstPosition(t: Line, e: Epoch, front: seq<real>)
    requires Sane(t) && e.chunks != [] && t.lastEpoch != Some(e.id)
    requires Restarted(t, e.start, e.id).base == |front| && t.n <= |front| + 1
    ensures WithinReach(t, SliceOf(e, 0), e.id, 1)
  {
    assert e.chunks[..0] == [];
    assert SliceOf(e, 0).time == e.start;
  }

  lemma NextPosition(t: Line, e: Epoch, k: nat, front: seq<real>)
    requires Sane(t) && Chunked(e.chunks) && 1 <= k < |e.chunks| && Inside(t, e, k, |front|, front)
    ensures WithinReach(t, SliceOf(e, k), e.id, 1)
  {
    FlatGrows(e.chunks[..k], k - 1);
    assert e.chunks[..k][..k - 1] == e.chunks[..k - 1];
    RoundWhole(|Flat(e.chunks[..k])|);
  }

  const KICK := Slice(1, true, [Some([0.0])], 0.0, true)
  const VOICE := Slice(1, true, [Some([1.0])], 0.0, true)
  const EARLY := [Begin(KICK, 1), Write, Write, Write, Look(1), Measure, CopyOne]

  lemma ExecMore(s: State, steps: seq<Step>, step: Step, lookbehind: nat)
    ensures var before := Exec(s, steps, lookbehind);
      Exec(s, steps + [step], lookbehind) == if Enabled(before, step) then Apply(before, step, lookbehind) else before
  {
    assert (steps + [step])[..|steps|] == steps;
  }

  /** A slice of one sample over a resting writer takes three steps after it is taken up. */
  lemma OneSampleSlice(s: State, steps: seq<Step>, slice: Slice, epoch: nat, v: real)
    requires var t := Exec(s, steps, 0); Enabled(t, Begin(slice, epoch)) && Sane(t.line)
    requires Carries(slice) && Payload(slice) == [v]
    requires var t := Exec(s, steps, 0); Position(Timed(t.line, slice, epoch), slice.timed) <= t.line.n && Position(Timed(t.line, slice, epoch), slice.timed) < |t.line.pcm|
    ensures var t, more := Exec(s, steps, 0), steps + [Begin(slice, epoch)] + [Write] + [Write];
      var pos := Position(Timed(t.line, slice, epoch), slice.timed);
      && Exec(s, more, 0) == t.(begun := t.begun + [(slice, epoch)],
           line := Timed(t.line, slice, epoch).(pcm := t.line.pcm[pos := v]), writer := Writing(pos, [v], 1))
      && Exec(s, more + [Write], 0) == t.(begun := t.begun + [(slice, epoch)],
           line := Timed(t.line, slice, epoch).(pcm := t.line.pcm[pos := v], n := if pos + 1 <= t.line.n then t.line.n else pos + 1),
           writer := Resting)
  {
    hide Timed, Position, Payload;
    var t := Exec(s, steps, 0);
    TimedKeeps(t.line, slice, epoch);
    ExecMore(s, steps, Begin(slice, epoch), 0);
    ExecMore(s, steps + [Begin(slice, epoch)], Write, 0);
    ExecMore(s, steps + [Begin(slice, epoch)] + [Write], Write, 0);
    ExecMore(s, steps + [Begin(slice, epoch)] + [Write] + [Write], Write, 0);
  }

  lemma KickTimed()
    ensures var t := Timed(Cleared([0.0, 0.0], 0.0), KICK, 1);
      t == Line([0.0, 0.0], 0, 0, 0.0, true, 0.0, Some(1), 1, 0) && Position(t, true) == 0
  {
  }

  /** With no lookbehind a pull hands out the kick as soon as it is collected. */
  lemma EarlyPull()
    ensures var s := Exec(Start([0.0, 0.0], 0.0), EARLY, 0);
      && s == State(Line([0.0, 0.0], 1, 0, 0.0, true, 0.0, Some(1), 1, 0), Resting, [(KICK, 1)], false, 1, [0], Idle)
  {
    hide Exec, Timed;
    var s0 := Start([0.0, 0.0], 0.0);
    KickTimed();
    assert Exec(s0, [], 0) == s0 by { NoSteps(s0); }
    OneSampleSlice(s0, [], KICK, 1, 0.0);
    var wrote := [] + [Begin(KICK, 1)] + [Write] + [Write] + [Write];
    ExecMore(s0, wrote, Look(1), 0);
    ExecMore(s0, wrote + [Look(1)], Measure, 0);
    ExecMore(s0, wrote + [Look(1)] + [Measure], CopyOne, 0);
    assert wrote + [Look(1)] + [Measure] + [CopyOne] == EARLY;
  }

  lemma NoSteps(s: State)
    ensures Exec(s, [], 0) == s
  {
  }

  /** A later epoch writes over it: what was handed out is not the audio's beginning.
      So some lookbehind is needed even for runs that are contiguous within each epoch. */
  lemma LookbehindIsNeeded()
    ensures var s := Exec(Start([0.0, 0.0], 0.0), EARLY + [Begin(VOICE, 2)] + [Write] + [Write], 0);
      s.pos == 1 <= |s.line.pcm| && s.pulled != Clipped(s.line.pcm[..s.pos])
  {
    hide Exec, Timed;
    var s0 := Start([0.0, 0.0], 0.0);
    EarlyPull();
    VoiceTimed();
    OneSampleSlice(s0, EARLY, VOICE, 2, 1.0);
    var pcm: seq<real> := [0.0, 0.0];
    assert Clipped(pcm[0 := 1.0][..1])[0] == 32767;
  }

  lemma VoiceTimed()
    ensures var t := Timed(Line([0.0, 0.0], 1, 0, 0.0, true, 0.0, Some(1), 1, 0), VOICE, 2);
      t.pcm == [0.0, 0.0] && t.n == 1 && Position(t, true) == 0
  {
  }
}
