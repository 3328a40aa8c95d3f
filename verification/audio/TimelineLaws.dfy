/** What the collector promises about the audio it gathers. */
module TimelineLaws {
  import opened Wrappers
  import opened Timeline

  // ---- any slices at all

  lemma CollectStep(t: Line, s: Slice, epoch: nat)
    requires Sane(t)
    ensures var t' := Collected(t, s, epoch);
      && Sane(t') && |t'.pcm| == |t.pcm|
      && t.base <= t'.base && t.n <= t'.n
      && t'.pcm[..t'.base] == t.pcm[..t'.base]
  {
    hide Timed, Position, Payload;
    if s.listed && s.frames > 0 {
      TimedKeeps(t, s, epoch);
      PositionIsLate(Timed(t, s, epoch), s.timed);
    }
  }

  lemma TimedKeeps(t: Line, s: Slice, epoch: nat)
    requires Sane(t)
    ensures var t1 := Timed(t, s, epoch);
      Sane(t1) && t1.pcm == t.pcm && t1.n == t.n && t.base <= t1.base
  {
  }

  lemma PositionIsLate(t: Line, timed: bool)
    requires Sane(t)
    ensures t.base <= Position(t, timed)
  {
  }

  /** Any slices, each with the restart count it belongs to. */
  function Gathered(t: Line, run: seq<(Slice, nat)>): (r: Line)
    requires Sane(t)
    ensures Sane(r)
  {
    if run == [] then t
    else
      var before, (s, epoch) := Gathered(t, run[..|run| - 1]), run[|run| - 1];
      CollectStep(before, s, epoch);
      Collected(before, s, epoch)
  }

  /** Whatever slices follow, both cursors only move forward and nothing below the base ever changes again. */
  lemma {:induction false} CollectKeeps(t: Line, run: seq<(Slice, nat)>)
    requires Sane(t)
    ensures var t' := Gathered(t, run);
      && |t'.pcm| == |t.pcm|
      && t.base <= t'.base && t.n <= t'.n
      && t'.pcm[..t.base] == t.pcm[..t.base]
  {
    hide Collected;
    if run != [] {
      var front, s, epoch := run[..|run| - 1], run[|run| - 1].0, run[|run| - 1].1;
      CollectKeeps(t, front);
      var before := Gathered(t, front);
      CollectStep(before, s, epoch);
      var t' := Collected(before, s, epoch);
      assert t'.pcm[..t.base] == t'.pcm[..t'.base][..t.base] == before.pcm[..t.base];
    }
  }

  // ---- where a slice goes

  /** The slice carries a buffer that is collected, though it may hold no sample. */
  predicate Carries(s: Slice) { s.listed && s.frames > 0 && s.buffers != [] && s.buffers[0].Some? }

  /** The nearest whole frame, halves up. */
  lemma RoundIsNearest(x: real)
    requires x >= 0.0
    ensures Round(x) as real - 0.5 <= x < Round(x) as real + 0.5
  {
  }

  /** What a slice carries: its first buffer, as many frames of it as it says it has. */
  lemma PayloadIs(s: Slice)
    requires s.buffers != [] && s.buffers[0].Some?
    ensures var (data, all) := (Payload(s), s.buffers[0].value);
      && |data| <= |all| && data == all[..|data|]
      && |data| == if s.frames < |all| then s.frames else |all|
  {
  }

  lemma DataLands(t: Line, pos: nat, data: seq<real>)
    requires pos + |data| <= |t.pcm|
    ensures Placed(t, pos, data).pcm[pos..pos + |data|] == data
  {
    forall k | 0 <= k < |data| ensures Placed(t, pos, data).pcm[pos..pos + |data|][k] == data[k] {}
  }

  /** A slice that fits is in the buffer at its position, after silence if that is past the end;
      no other frame changes, and the end is where the later of the two ends is. */
  lemma SliceLands(t: Line, s: Slice, epoch: nat)
    requires Sane(t) && Carries(s)
    requires Position(Timed(t, s, epoch), s.timed) + |Payload(s)| <= |t.pcm|
    ensures var (t', pos, data) := (Collected(t, s, epoch), Position(Timed(t, s, epoch), s.timed), Payload(s));
      && t'.pcm[pos..pos + |data|] == data
      && (data != [] || pos < |t.pcm| ==> forall i :: t.n <= i < pos ==> t'.pcm[i] == 0.0)
      && (forall i :: 0 <= i < |t.pcm| && (i < t.n || pos <= i) && !(pos <= i < pos + |data|) ==> t'.pcm[i] == t.pcm[i])
      && t'.n == if pos + |data| <= t.n then t.n else pos + |data|
    ensures var all := s.buffers[0].value;
      Payload(s) == all[..if s.frames < |all| then s.frames else |all|]
  {
    hide Timed, Position, Payload;
    PayloadIs(s);
    TimedKeeps(t, s, epoch);
    DataLands(Timed(t, s, epoch), Position(Timed(t, s, epoch), s.timed), Payload(s));
  }

  /** After a slice its time is what the clock shows. */
  lemma ClockShows(t: Line, s: Slice, epoch: nat)
    requires Sane(t) && s.listed && s.frames > 0
    ensures var t' := Collected(t, s, epoch);
      Sane(t') && t'.lastEpoch == Some(epoch) && t'.haveOrigin && t'.origin + t'.lastTime == s.time && |t'.pcm| == |t.pcm|
  {
    CollectStep(t, s, epoch);
  }

  /** A slice of the same restart count that is not earlier than the one before it goes to its place
      on the same clock: the base stands, and the position is the base plus the time since the clock's zero. */
  lemma LaterSliceKeepsClock(t: Line, s1: Slice, s2: Slice, epoch: nat)
    requires Sane(t) && s1.listed && s1.frames > 0 && Carries(s2) && s2.timed && s1.time <= s2.time
    ensures var t1 := Collected(t, s1, epoch);
      Sane(t1) && Position(Timed(t1, s2, epoch), true) == t1.base + Round(s2.time - t1.origin)
  {
    ClockShows(t, s1, epoch);
  }

  /** One that is earlier changes no frame below the end: its samples come after it, as far after it
      as its time is past the clock's zero. */
  lemma EarlierSliceAppends(t: Line, s1: Slice, s2: Slice, epoch: nat)
    requires Sane(t) && s1.listed && s1.frames > 0 && Carries(s2) && s2.timed && s2.time < s1.time
    ensures var t1 := Collected(t, s1, epoch);
      Sane(t1) &&
      var (t2, pos) := (Collected(t1, s2, epoch), t1.n + Round(s2.time - t1.origin));
      && Position(Timed(t1, s2, epoch), true) == pos
      && t2.pcm[..t1.n] == t1.pcm[..t1.n]
      && (pos + |Payload(s2)| <= |t1.pcm| ==> t2.pcm[pos..pos + |Payload(s2)|] == Payload(s2))
  {
    ClockShows(t, s1, epoch);
    EarlierPosition(Collected(t, s1, epoch), s2, epoch);
    EarlierLands(Collected(t, s1, epoch), s2, epoch);
  }

  lemma EarlierPosition(t: Line, s: Slice, epoch: nat)
    requires Sane(t) && t.lastEpoch == Some(epoch) && t.haveOrigin && s.timed && s.time < t.origin + t.lastTime
    ensures Position(Timed(t, s, epoch), true) == t.n + Round(s.time - t.origin)
  {
  }

  lemma EarlierLands(t: Line, s: Slice, epoch: nat)
    requires Sane(t) && Carries(s) && s.timed
    requires Position(Timed(t, s, epoch), true) >= t.n
    ensures var (t', pos) := (Collected(t, s, epoch), Position(Timed(t, s, epoch), true));
      && |t'.pcm| == |t.pcm| && t'.pcm[..t.n] == t.pcm[..t.n]
      && (pos + |Payload(s)| <= |t.pcm| ==> t'.pcm[pos..pos + |Payload(s)|] == Payload(s))
  {
    hide Timed, Position, Payload;
    TimedKeeps(t, s, epoch);
  }

  /** A new restart count starts a clock of its own: its first slice goes to the end of the audio,
      or over the kick; a slice without a time goes to the end. */
  lemma NewEpochStarts(t: Line, s: Slice, epoch: nat)
    requires Sane(t)
    ensures t.lastEpoch.Some? && t.lastEpoch != Some(epoch) ==>
      Position(Timed(t, s, epoch), true) == if Kicked(t) then t.epochStart else t.n
    ensures t.lastEpoch.None? ==> Position(Timed(t, s, epoch), true) == t.base
    ensures Position(Timed(t, s, epoch), false) == t.n
  {
  }

  // ---- what the buffer held before

  /** The slice starts past a buffer that is not full. */
  predicate StartsPast(t: Line, s: Slice, epoch: nat)
    requires Sane(t)
  {
    Carries(s) && t.n < |t.pcm| <= Position(Timed(t, s, epoch), s.timed)
  }

  /** Frame `i` is neither silence filled in nor one of the slice's samples. */
  predicate Untouched(t: Line, s: Slice, epoch: nat, i: nat)
    requires Sane(t)
  {
    Carries(s) ==>
      var pos := Position(Timed(t, s, epoch), s.timed);
      !(pos <= i < pos + |Payload(s)|) && !(pos < |t.pcm| && t.n <= i < pos)
  }

  /** Collecting a slice makes frames nobody wrote part of the audio exactly when it starts past
      the buffer: then the whole rest of the buffer does, with whatever it held before. */
  lemma StaleFramesExposed(t: Line, s: Slice, epoch: nat)
    requires Sane(t)
    ensures (exists i :: t.n <= i < Collected(t, s, epoch).n && Untouched(t, s, epoch, i)) <==> StartsPast(t, s, epoch)
    ensures StartsPast(t, s, epoch) ==> Collected(t, s, epoch).n == |t.pcm| && Collected(t, s, epoch).pcm == t.pcm
  {
    hide Timed, Position, Payload;
    TimedKeeps(t, s, epoch);
    if StartsPast(t, s, epoch) {
      assert Untouched(t, s, epoch, t.n);
    }
  }

  /** The same collector state over buffers that agree on the audio so far. */
  ghost predicate SameAudio(a: Line, b: Line) {
    b == a.(pcm := b.pcm) && |a.pcm| == |b.pcm| && a.n <= |a.pcm| && a.pcm[..a.n] == b.pcm[..a.n]
  }

  lemma SameTimed(a: Line, b: Line, s: Slice, epoch: nat)
    requires Sane(a) && SameAudio(a, b)
    ensures Sane(b) && SameAudio(Timed(a, s, epoch), Timed(b, s, epoch))
  {
    if a.n == a.epochStart + 1 {
      assert a.pcm[a.epochStart] == a.pcm[..a.n][a.epochStart] == b.pcm[..a.n][a.epochStart] == b.pcm[a.epochStart];
    }
  }

  lemma SamePlaced(a: Line, b: Line, pos: nat, data: seq<real>)
    requires SameAudio(a, b) && !(a.n < |a.pcm| <= pos)
    ensures SameAudio(Placed(a, pos, data), Placed(b, pos, data))
  {
    var a', b' := Placed(a, pos, data), Placed(b, pos, data);
    forall i | 0 <= i < a'.n ensures a'.pcm[i] == b'.pcm[i] {
      if i < a.n { assert a.pcm[..a.n][i] == b.pcm[..a.n][i]; }
    }
  }

  lemma SameStep(a: Line, b: Line, s: Slice, epoch: nat)
    requires Sane(a) && SameAudio(a, b) && !StartsPast(a, s, epoch)
    ensures Sane(b) && SameAudio(Collected(a, s, epoch), Collected(b, s, epoch))
  {
    hide Timed, Position, Payload, SameAudio, Placed;
    SameTimed(a, b, s, epoch);
    TimedKeeps(a, s, epoch);
    if Carries(s) {
      SamePosition(Timed(a, s, epoch), Timed(b, s, epoch), s.timed);
      SamePlaced(Timed(a, s, epoch), Timed(b, s, epoch), Position(Timed(a, s, epoch), s.timed), Payload(s));
    }
  }

  lemma SamePosition(a: Line, b: Line, timed: bool)
    requires SameAudio(a, b)
    ensures Position(a, timed) == Position(b, timed)
  {
  }

  /** No slice of the run starts past a buffer that is not full. */
  ghost predicate AllStartInside(t: Line, run: seq<(Slice, nat)>)
    requires Sane(t)
  {
    run == [] ||
    (var front := run[..|run| - 1];
     AllStartInside(t, front) && !StartsPast(Gathered(t, front), run[|run| - 1].0, run[|run| - 1].1))
  }

  /** In such a run what the buffer held before is never heard: the audio does not depend on it. */
  lemma {:induction false} OldContentIsNeverHeard(pcm: seq<real>, previous: seq<real>, origin: real, run: seq<(Slice, nat)>)
    requires |pcm| == |previous| && AllStartInside(Cleared(pcm, origin), run)
    ensures SameAudio(Gathered(Cleared(pcm, origin), run), Gathered(Cleared(previous, origin), run))
  {
    hide Collected, SameAudio, StartsPast;
    if run == [] {
      ClearedAlike(pcm, previous, origin);
    } else {
      var front, s, epoch := run[..|run| - 1], run[|run| - 1].0, run[|run| - 1].1;
      OldContentIsNeverHeard(pcm, previous, origin, front);
      SameStep(Gathered(Cleared(pcm, origin), front), Gathered(Cleared(previous, origin), front), s, epoch);
    }
  }

  lemma ClearedAlike(pcm: seq<real>, previous: seq<real>, origin: real)
    requires |pcm| == |previous|
    ensures SameAudio(Cleared(pcm, origin), Cleared(previous, origin))
  {
  }

  /** Two slices of one epoch, the second empty and timed past the end of the buffer. */
  function Overshoot(cap: nat): seq<(Slice, nat)> {
    [(Slice(1, true, [Some([1.0])], 0.0, true), 1), (Slice(1, true, [Some([])], cap as real, true), 1)]
  }

  /** They make everything the buffer held after its first frame part of the new audio. */
  lemma OvershootIsHeard(pcm: seq<real>)
    requires |pcm| > 1
    ensures var t := Gathered(Cleared(pcm, 0.0), Overshoot(|pcm|));
      t.n == |pcm| && t.pcm == [1.0] + pcm[1..]
  {
    hide Gathered, Collected;
    var t0, run := Cleared(pcm, 0.0), Overshoot(|pcm|);
    var t1 := Collected(t0, run[0].0, 1);
    OneFrame(pcm);
    NoneGathered(t0);
    OneGathered(t0, [], run[0]);
    assert run == [run[0]] + [run[1]] && [] + [run[0]] == [run[0]];
    OneGathered(t0, [run[0]], run[1]);
    PastEnd(t1, run[1].0);
    StaleFramesExposed(t1, run[1].0, 1);
  }

  lemma NoneGathered(t: Line)
    requires Sane(t)
    ensures Gathered(t, []) == t
  {
  }

  lemma OneGathered(t: Line, front: seq<(Slice, nat)>, last: (Slice, nat))
    requires Sane(t)
    ensures Gathered(t, front + [last]) == Collected(Gathered(t, front), last.0, last.1)
  {
    assert (front + [last])[..|front|] == front;
  }

  lemma OneFrame(pcm: seq<real>)
    requires |pcm| > 1
    ensures var t := Collected(Cleared(pcm, 0.0), Overshoot(|pcm|)[0].0, 1);
      && Sane(t) && t.n == 1 && t.pcm == [1.0] + pcm[1..] && t.base == 0
      && t.lastEpoch == Some(1) && t.haveOrigin && t.origin == 0.0 && t.lastTime == 0.0
  {
    CollectStep(Cleared(pcm, 0.0), Overshoot(|pcm|)[0].0, 1);
  }

  lemma PastEnd(t: Line, s: Slice)
    requires Sane(t) && t.lastEpoch == Some(1) && t.haveOrigin && t.origin == 0.0 && t.lastTime == 0.0 && t.base == 0
    requires Carries(s) && s.timed && s.time == |t.pcm| as real && t.n < |t.pcm|
    ensures StartsPast(t, s, 1)
  {
    RoundWhole(|t.pcm|);
  }

  // ---- runs that are contiguous within each epoch

  /** An epoch: its restart count, where its clock starts, and its audio slice by slice. */
  datatype Epoch = Epoch(id: nat, start: real, chunks: seq<seq<real>>)

  function Flat(chunks: seq<seq<real>>): seq<real> {
    if chunks == [] then [] else Flat(chunks[..|chunks| - 1]) + chunks[|chunks| - 1]
  }

  predicate Chunked(chunks: seq<seq<real>>) {
    forall k :: 0 <= k < |chunks| ==> chunks[k] != []
  }

  ghost predicate WellFormed(es: seq<Epoch>) {
    && (forall k :: 0 <= k < |es| ==> es[k].chunks != [] && Chunked(es[k].chunks))
    && (forall j, k :: 0 <= j < k < |es| && k == j + 1 ==> es[j].id != es[k].id)
  }

  /** The slice that carries one chunk of an epoch, timed right after the chunks before it. */
  function SliceOf(e: Epoch, k: nat): Slice
    requires k < |e.chunks|
  {
    Slice(|e.chunks[k]|, true, [Some(e.chunks[k])], e.start + |Flat(e.chunks[..k])| as real, true)
  }

  /** Collect the first `k` chunks of an epoch. */
  function CollectedChunks(t: Line, e: Epoch, k: nat): (r: Line)
    requires Sane(t) && k <= |e.chunks|
    ensures Sane(r) && |r.pcm| == |t.pcm|
  {
    if k == 0 then t
    else
      var before := CollectedChunks(t, e, k - 1);
      CollectStep(before, SliceOf(e, k - 1), e.id);
      Collected(before, SliceOf(e, k - 1), e.id)
  }

  function CollectedEpochs(t: Line, es: seq<Epoch>): (r: Line)
    requires Sane(t)
    ensures Sane(r)
  {
    if es == [] then t
    else CollectedChunks(CollectedEpochs(t, es[..|es| - 1]), es[|es| - 1], |es[|es| - 1].chunks|)
  }

  /** One silent frame: how the engine starts the player. */
  predicate IsKick(e: Epoch) { |e.chunks| == 1 && e.chunks[0] == [0.0] }

  /** The audio that later epochs are put after: all but a kick at the end. */
  function Settled(es: seq<Epoch>): seq<real> {
    if es == [] then []
    else Settled(es[..|es| - 1]) + if IsKick(es[|es| - 1]) then [] else Flat(es[|es| - 1].chunks)
  }

  /** The epochs' audio in order, a kick replaced by the epoch after it. */
  function Joined(es: seq<Epoch>): seq<real> {
    if es == [] then [] else Settled(es[..|es| - 1]) + Flat(es[|es| - 1].chunks)
  }

  lemma {:induction false} FlatGrows(chunks: seq<seq<real>>, k: nat)
    requires k <= |chunks|
    ensures Flat(chunks[..k]) <= Flat(chunks)
    ensures Chunked(chunks) ==> |Flat(chunks[..k])| + (|chunks| - k) <= |Flat(chunks)|
  {
    if k < |chunks| {
      var front := chunks[..|chunks| - 1];
      FlatGrows(front, k);
      assert front[..k] == chunks[..k];
    } else {
      assert chunks[..k] == chunks;
    }
  }

  lemma RoundWhole(n: nat)
    ensures Round(n as real) == n
  {
  }

  /** Where the collector stands inside an epoch whose audio starts at `at`. */
  ghost predicate Inside(t: Line, e: Epoch, k: nat, at: nat, front: seq<real>)
    requires 1 <= k <= |e.chunks|
  {
    && t.lastEpoch == Some(e.id) && t.haveOrigin && t.origin == e.start
    && t.base == t.epochStart == at == |front| && t.epochSlices == k
    && t.lastTime == |Flat(e.chunks[..k - 1])| as real
    && t.n == at + |Flat(e.chunks[..k])| <= |t.pcm| && t.pcm[..t.n] == front + Flat(e.chunks[..k])
  }

  /** The first chunk of an epoch starts right after the settled audio. */
  lemma FirstChunk(t: Line, e: Epoch, front: seq<real>)
    requires Sane(t) && e.chunks != [] && Chunked(e.chunks)
    requires t.lastEpoch != Some(e.id)
    requires Restarted(t, e.start, e.id).base == |front| && t.pcm[..|front|] == front && t.n <= |front| + 1
    requires |front| + |e.chunks[0]| <= |t.pcm|
    ensures Inside(CollectedChunks(t, e, 1), e, 1, |front|, front)
  {
    assert e.chunks[..0] == [] && e.chunks[..1] == [e.chunks[0]];
    assert Flat([e.chunks[0]][..0]) + e.chunks[0] == e.chunks[0];
    var s := SliceOf(e, 0);
    assert CollectedChunks(t, e, 0) == t;
    assert s.time == e.start;
    FirstSlice(t, s, e.id, front);
  }

  lemma FirstSlice(t: Line, s: Slice, id: nat, front: seq<real>)
    requires Sane(t) && t.lastEpoch != Some(id) && Restarted(t, s.time, id).base == |front|
    requires t.pcm[..|front|] == front && t.n <= |front| + 1
    requires s.listed && s.timed && |s.buffers| == 1 && s.buffers[0].Some? && s.buffers[0].value != []
    requires s.frames == |s.buffers[0].value| && |front| + s.frames <= |t.pcm|
    ensures var r := Collected(t, s, id);
      && r.lastEpoch == Some(id) && r.haveOrigin && r.origin == s.time && r.lastTime == 0.0
      && r.base == r.epochStart == |front| && r.epochSlices == 1
      && r.n == |front| + s.frames && r.pcm[..r.n] == front + s.buffers[0].value
  {
    var t1 := Timed(t, s, id);
    var r := Placed(t1, |front|, s.buffers[0].value);
    assert r.pcm[..r.n] == front + s.buffers[0].value;
  }

  lemma NextChunk(t: Line, e: Epoch, k: nat, front: seq<real>)
    requires Sane(t) && Chunked(e.chunks) && 1 <= k < |e.chunks| && Inside(t, e, k, |front|, front)
    requires |front| + |Flat(e.chunks[..k + 1])| <= |t.pcm|
    ensures Inside(Collected(t, SliceOf(e, k), e.id), e, k + 1, |front|, front)
  {
    var s := SliceOf(e, k);
    var so := Flat(e.chunks[..k]);
    assert e.chunks[..k + 1][..k] == e.chunks[..k];
    assert Flat(e.chunks[..k + 1]) == so + e.chunks[k];
    FlatGrows(e.chunks[..k], k - 1);
    assert e.chunks[..k][..k - 1] == e.chunks[..k - 1];
    RoundWhole(|so|);
    var t1 := Timed(t, s, e.id);
    assert t1.lastTime == |so| as real && t1.base == |front|;
    assert Position(t1, true) == t.n;
    var r := Collected(t, s, e.id);
    assert r == Placed(t1, t.n, e.chunks[k]);
    assert r.pcm[..r.n] == t.pcm[..t.n] + e.chunks[k];
  }

  lemma {:induction false} ChunksJoin(t: Line, e: Epoch, k: nat, front: seq<real>)
    requires Sane(t) && Chunked(e.chunks) && 1 <= k <= |e.chunks|
    requires t.lastEpoch != Some(e.id)
    requires Restarted(t, e.start, e.id).base == |front| && t.pcm[..|front|] == front && t.n <= |front| + 1
    requires |front| + |Flat(e.chunks)| <= |t.pcm|
    ensures |CollectedChunks(t, e, k).pcm| == |t.pcm| && Inside(CollectedChunks(t, e, k), e, k, |front|, front)
  {
    hide Inside, Restarted, Collected;
    FlatGrows(e.chunks, k);
    if k == 1 {
      assert e.chunks[..1] == [e.chunks[0]];
      assert Flat([e.chunks[0]][..0]) + e.chunks[0] == e.chunks[0];
      FirstChunk(t, e, front);
    } else {
      ChunksJoin(t, e, k - 1, front);
      NextChunk(CollectedChunks(t, e, k - 1), e, k - 1, front);
    }
  }

  lemma JoinedGrows(es: seq<Epoch>)
    requires es != [] && WellFormed(es)
    ensures |Joined(es[..|es| - 1])| <= |Joined(es)|
  {
    var front := es[..|es| - 1];
    FlatGrows(es[|es| - 1].chunks, 0);
    if front != [] && IsKick(front[|front| - 1]) {
      assert Flat(front[|front| - 1].chunks) == [0.0] by {
        assert front[|front| - 1].chunks == [[0.0]];
        assert Flat([[0.0]][..0]) + [0.0] == [0.0];
      }
    }
  }

  /** After any well-formed run the buffer holds the epochs' audio in order. */
  lemma {:induction false} TimelineIsConcatenation(pcm: seq<real>, origin: real, es: seq<Epoch>)
    requires WellFormed(es) && |Joined(es)| <= |pcm|
    ensures var t := CollectedEpochs(Cleared(pcm, origin), es);
      |t.pcm| == |pcm| && t.n == |Joined(es)| && t.pcm[..t.n] == Joined(es)
    ensures es != [] ==> Inside(CollectedEpochs(Cleared(pcm, origin), es), es[|es| - 1], |es[|es| - 1].chunks|,
                                |Settled(es[..|es| - 1])|, Settled(es[..|es| - 1]))
  {
    if es != [] {
      var front, e := es[..|es| - 1], es[|es| - 1];
      JoinedGrows(es);
      TimelineIsConcatenation(pcm, origin, front);
      var t := CollectedEpochs(Cleared(pcm, origin), front);
      RestartAfter(t, front, e);
      ChunksJoin(t, e, |e.chunks|, Settled(front));
      assert e.chunks[..|e.chunks|] == e.chunks;
    }
  }

  /** A restart puts the clock after the settled audio: the kick test finds exactly the kicks. */
  lemma RestartAfter(t: Line, front: seq<Epoch>, e: Epoch)
    requires Sane(t) && WellFormed(front) && t.n == |Joined(front)| && t.pcm[..t.n] == Joined(front)
    requires front == [] ==> t.lastEpoch.None? && t.base == 0
    requires front != [] ==> front[|front| - 1].id != e.id
    requires front != [] ==>
      Inside(t, front[|front| - 1], |front[|front| - 1].chunks|, |Settled(front[..|front| - 1])|, Settled(front[..|front| - 1]))
    ensures t.lastEpoch != Some(e.id)
    ensures Restarted(t, e.start, e.id).base == |Settled(front)|
    ensures |Settled(front)| <= t.n <= |Settled(front)| + 1 && t.pcm[..|Settled(front)|] == Settled(front)
  {
    if front != [] {
      var last, before := front[|front| - 1], Settled(front[..|front| - 1]);
      assert last.chunks[..|last.chunks|] == last.chunks;
      FlatGrows(last.chunks, 0);
      FlatGrows(last.chunks, 1);
      assert last.chunks[..1] == [last.chunks[0]] && Flat([last.chunks[0]][..0]) + last.chunks[0] == last.chunks[0];
      assert Flat(last.chunks[..1]) == last.chunks[0];
      var flat := Flat(last.chunks);
      assert |flat| >= 1;
      assert t.pcm[t.epochStart] == t.pcm[..t.n][|before|] == flat[0];
      assert Kicked(t) <==> |last.chunks| == 1 && |flat| == 1 && flat[0] == 0.0;
      assert IsKick(last) ==> flat == [0.0];
      assert t.pcm[..|before|] == t.pcm[..t.n][..|before|];
    }
  }
}
