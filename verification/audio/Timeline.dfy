/** The timeline collector: scheduled slices written into one buffer at their own times. */
module Timeline {
  import opened Wrappers

  /** A scheduled slice: its buffer list (if it has one), its sample time and whether that is valid. */
  datatype Slice = Slice(frames: nat, listed: bool, buffers: seq<Option<seq<real>>>, time: real, timed: bool)

  /** The collected audio is `pcm[..n]`; `base` is where the current epoch's clock is zero. */
  datatype Line = Line(
    pcm: seq<real>, n: nat, base: nat, origin: real, haveOrigin: bool, lastTime: real,
    lastEpoch: Option<nat>, epochSlices: nat, epochStart: nat)

  /** A new utterance: cursor and clock start over, the buffer keeps its content. */
  function Cleared(pcm: seq<real>, origin: real): Line { Line(pcm, 0, 0, origin, false, 0.0, None, 0, 0) }

  predicate Sane(t: Line) {
    && t.epochStart <= t.base <= t.n <= |t.pcm|
    && (t.epochSlices <= 1 ==> t.base == t.epochStart)
    && 0.0 <= t.lastTime
    && (t.lastEpoch.None? <==> t.epochSlices == 0)
  }

  /** All the current epoch has brought is a single frame, and that frame is zero. */
  predicate Kicked(t: Line)
    requires Sane(t)
  {
    t.epochSlices == 1 && t.n == t.epochStart + 1 && t.pcm[t.epochStart] == 0.0
  }

  /** A new restart count moves the base to the end of the audio, or back to the start of a kick. */
  function Restarted(t: Line, time: real, epoch: nat): Line
    requires Sane(t)
  {
    if t.lastEpoch == Some(epoch) then t
    else
      var base := if t.lastEpoch.None? then t.base else if Kicked(t) then t.epochStart else t.n;
      t.(base := base, origin := time, haveOrigin := true, lastTime := 0.0,
         lastEpoch := Some(epoch), epochSlices := 0, epochStart := base)
  }

  /** Count the slice in, and start over where the audio ends if its clock went back. */
  function Clocked(t: Line, time: real): Line {
    var t1 := t.(epochSlices := t.epochSlices + 1,
                 origin := if t.haveOrigin then t.origin else time, haveOrigin := true);
    var at := time - t1.origin;
    if at < 0.0 then t1.(base := t1.n, origin := t1.origin + at, lastTime := 0.0)
    else t1.(base := if at < t1.lastTime then t1.n else t1.base, lastTime := at)
  }

  function Round(x: real): nat { if x > 0.0 then (x + 0.5).Floor else 0 }

  /** Where a slice's first frame goes; a slice without a valid time is appended. */
  function Position(t: Line, timed: bool): nat {
    if timed then t.base + Round(t.lastTime) else t.n
  }

  /** Silence up to `pos`, then the data, as far as the buffer reaches. */
  function Placed(t: Line, pos: nat, data: seq<real>): (r: Line)
    ensures |r.pcm| == |t.pcm|
  {
    var gap := t.n < pos < |t.pcm|;
    var n := if gap then pos else t.n;
    t.(pcm := seq(|t.pcm|, i requires 0 <= i < |t.pcm| =>
                 if pos <= i < pos + |data| then data[i - pos] else if gap && t.n <= i < pos then 0.0 else t.pcm[i]),
       n := if pos + |data| <= n then n else if pos + |data| < |t.pcm| then pos + |data| else |t.pcm|)
  }

  function Payload(s: Slice): seq<real>
    requires s.buffers != [] && s.buffers[0].Some?
  {
    var data := s.buffers[0].value;
    if s.frames < |data| then data[..s.frames] else data
  }

  function Timed(t: Line, s: Slice, epoch: nat): Line
    requires Sane(t)
  {
    Clocked(Restarted(t, s.time, epoch), s.time)
  }

  /** Only the first buffer of the list is collected. */
  function Stored(t: Line, s: Slice): Line {
    if s.buffers == [] || s.buffers[0].None? then t else Placed(t, Position(t, s.timed), Payload(s))
  }

  function Collected(t: Line, s: Slice, epoch: nat): Line
    requires Sane(t)
  {
    if !s.listed || s.frames == 0 then t else Stored(Timed(t, s, epoch), s)
  }

  class Collector {
    const pcm: array<real>
    var n: nat
    var base: nat
    var origin: real
    var haveOrigin: bool
    var lastTime: real
    var lastEpoch: Option<nat>
    var epochSlices: nat
    var epochStart: nat

    ghost function State(): Line
      reads this, pcm
    {
      Line(pcm[..], n, base, origin, haveOrigin, lastTime, lastEpoch, epochSlices, epochStart)
    }

    constructor (cap: nat)
      ensures fresh(pcm) && pcm.Length == cap && State() == Cleared(seq(cap, _ => 0.0), 0.0)
    {
      pcm := new real[cap](_ => 0.0);
      n, base, origin, haveOrigin, lastTime := 0, 0, 0.0, false, 0.0;
      lastEpoch, epochSlices, epochStart := None, 0, 0;
    }

    method Reset()
      modifies this
      ensures State() == Cleared(old(pcm[..]), old(origin))
    {
      n, base, lastTime, haveOrigin := 0, 0, 0.0, false;
      lastEpoch, epochSlices, epochStart := None, 0, 0;
    }

    /** The clock's part of collecting a slice. */
    method Clock(time: real, epoch: nat)
      requires Sane(State())
      modifies this
      ensures State() == Clocked(Restarted(old(State()), time, epoch), time)
    {
      if lastEpoch != Some(epoch) {
        if lastEpoch.Some? {
          base := if epochSlices == 1 && n == epochStart + 1 && pcm[epochStart] == 0.0 then epochStart else n;
        }
        origin, haveOrigin := time, true;
        lastTime := 0.0;
        lastEpoch := Some(epoch);
        epochSlices := 0;
        epochStart := base;
      }
      epochSlices := epochSlices + 1;
      if !haveOrigin {
        origin, haveOrigin := time, true;
      }
      var at := time - origin;
      if at < 0.0 {
        base := n;
        origin := origin + at;
        at := 0.0;
      }
      if at < lastTime {
        base := n;
      }
      lastTime := at;
    }

    /** The buffer's part: silence over a gap, then the samples. */
    method Place(pos: nat, data: seq<real>)
      requires n <= pcm.Length
      modifies this`n, pcm
      ensures State() == Placed(old(State()), pos, data)
    {
      ghost var was := old(pcm[..]);
      if n < pos < pcm.Length {
        while n < pos
          invariant old(n) <= n <= pos
          invariant forall i :: 0 <= i < pcm.Length ==> pcm[i] == if old(n) <= i < n then 0.0 else was[i]
        {
          pcm[n] := 0.0;
          n := n + 1;
        }
      }
      ghost var mid, end := pcm[..], n;
      var j := 0;
      while j < |data| && pos + j < pcm.Length
        invariant 0 <= j <= |data| && n == end
        invariant forall i :: 0 <= i < pcm.Length ==> pcm[i] == if pos <= i < pos + j then data[i - pos] else mid[i]
      {
        pcm[pos + j] := data[j];
        j := j + 1;
      }
      if pos + |data| > n {
        n := if pos + |data| < pcm.Length then pos + |data| else pcm.Length;
      }
      assert pcm[..] == Placed(old(State()), pos, data).pcm;
    }

    method Store(s: Slice)
      requires n <= pcm.Length && s.buffers != [] && s.buffers[0].Some?
      modifies this`n, pcm
      ensures State() == Stored(old(State()), s)
    {
      hide Placed, Round;
      var pos := if s.timed then base + Round(lastTime) else n;
      Place(pos, Payload(s));
    }

    method Collect(s: Slice, epoch: nat)
      requires Sane(State())
      modifies this, pcm
      ensures State() == Collected(old(State()), s, epoch)
    {
      hide Placed, Clocked, Restarted, Position, Payload;
      if !s.listed || s.frames == 0 {
        return;
      }
      TimedFits(State(), s, epoch);
      Clock(s.time, epoch);
      var i := 0;
      ghost var ticked := State();
      while i < |s.buffers|
        invariant 0 <= i <= |s.buffers| && (i == 0 ==> State() == ticked) && (i > 0 ==> State() == Stored(ticked, s))
      {
        if i == 0 && s.buffers[0].Some? {
          Store(s);
        }
        i := i + 1;
      }
    }
  }

  lemma TimedFits(t: Line, s: Slice, epoch: nat)
    requires Sane(t)
    ensures Timed(t, s, epoch).n == t.n && Timed(t, s, epoch).pcm == t.pcm
  {
  }
}
