/** What an AAC stream means: access units, the samples they decode to, and the audio a
    listener should hear of a whole exchange with the engine. */
module AacStream {
  const FRAME: nat := 1024
  const PRIMING: nat := 2112
  const WORD: nat := 0x1_0000_0000

  type Sample = int
  type Unit = seq<int>

  /** What one access unit decodes to: exactly `FRAME` samples. */
  type Frame = f: seq<Sample> | |f| == FRAME witness seq(FRAME, _ => 0)

  /** The codec: a unit's frame is a function of the units so far. */
  datatype Codec = Codec(frame: (seq<Unit>, Unit) -> Frame, accepts: Unit -> bool)

  predicate Accepted(c: Codec, u: Unit) { c.accepts(u) }

  function Decoded(c: Codec, units: seq<Unit>): (r: seq<Sample>)
    ensures |r| == FRAME * |units|
  {
    if units == [] then []
    else Decoded(c, units[..|units| - 1]) + c.frame(units[..|units| - 1], units[|units| - 1])
  }

  lemma {:induction false} DecodedExtends(c: Codec, units: seq<Unit>, more: seq<Unit>)
    ensures Decoded(c, units) <= Decoded(c, units + more)
  {
    if more == [] {
      assert units + more == units;
    } else {
      var n := |more| - 1;
      DecodedExtends(c, units, more[..n]);
      assert (units + more)[..|units + more| - 1] == units + more[..n];
    }
  }

  /** What remains once the codec delay is dropped. */
  function Trim(s: seq<Sample>): seq<Sample> {
    if |s| <= PRIMING then [] else s[PRIMING..]
  }

  /** The audio of a complete stream. */
  function Payload(c: Codec, units: seq<Unit>): seq<Sample> { Trim(Decoded(c, units)) }

  lemma TrimTake(s: seq<Sample>, n: nat)
    requires n <= |s|
    ensures |Trim(s)| == (if |s| <= PRIMING then 0 else |s| - PRIMING)
    ensures Trim(s[..n]) == Trim(s)[..if n <= PRIMING then 0 else n - PRIMING]
  {
  }

  /** A packet description: a signed 64-bit offset and a byte count. */
  datatype Desc = Desc(start: int, size: nat)

  /** One answer of the engine's input callback; `mem` is the memory behind its buffer. */
  datatype Reply = Reply(descs: seq<Desc>, bytes: nat, mem: nat -> int)

  /** A reply without packets ends the stream. */
  predicate IsEnd(r: Reply) { r.descs == [] }

  predicate Skipped(d: Desc) { d.start < 0 || d.size == 0 }

  /** Whether a packet runs past the reply's bytes; the sum wraps at 32 bits, and no byte count means no check. */
  predicate OverrunsBuffer(d: Desc, bytes: nat) {
    bytes != 0 && (d.start % WORD + d.size) % WORD > bytes
  }

  function UnitAt(r: Reply, d: Desc): (u: Unit)
    ensures |u| == d.size
  {
    seq(d.size, k requires 0 <= k => r.mem(d.start % WORD + k))
  }

  /** The units a reply feeds from its `i`th description on: bad offsets are passed over,
      the first overrun ends it, and what the decoder refuses does not count. */
  function UnitsFrom(c: Codec, r: Reply, i: nat): seq<Unit>
    requires i <= |r.descs|
    decreases |r.descs| - i
  {
    if i == |r.descs| then []
    else if Skipped(r.descs[i]) then UnitsFrom(c, r, i + 1)
    else if OverrunsBuffer(r.descs[i], r.bytes) then []
    else
      var u := UnitAt(r, r.descs[i]);
      (if Accepted(c, u) then [u] else []) + UnitsFrom(c, r, i + 1)
  }

  /** The units of the stream that is still open after these replies. */
  function Open(c: Codec, replies: seq<Reply>): seq<Unit> {
    if replies == [] then []
    else
      var last := replies[|replies| - 1];
      if IsEnd(last) then [] else Open(c, replies[..|replies| - 1]) + UnitsFrom(c, last, 0)
  }

  /** All the audio of the streams these replies have ended. */
  function Closed(c: Codec, replies: seq<Reply>): seq<Sample> {
    if replies == [] then []
    else
      var front := replies[..|replies| - 1];
      Closed(c, front) + if IsEnd(replies[|replies| - 1]) then Payload(c, Open(c, front)) else []
  }

  /** Everything a listener may ever hear of these replies. */
  function Heard(c: Codec, replies: seq<Reply>): seq<Sample> {
    Closed(c, replies) + Payload(c, Open(c, replies))
  }

  // ---- only the units between the ends matter

  /** What replies tell of streams: the units of each one that was ended, and of the open one.
      Ending a stream that has no units tells nothing. */
  datatype Told = Told(closed: seq<seq<Unit>>, open: seq<Unit>)

  function ToldBy(c: Codec, replies: seq<Reply>): Told {
    if replies == [] then Told([], [])
    else
      var t, last := ToldBy(c, replies[..|replies| - 1]), replies[|replies| - 1];
      if IsEnd(last) then Told(if t.open == [] then t.closed else t.closed + [t.open], [])
      else t.(open := t.open + UnitsFrom(c, last, 0))
  }

  function Payloads(c: Codec, streams: seq<seq<Unit>>): seq<Sample> {
    if streams == [] then [] else Payloads(c, streams[..|streams| - 1]) + Payload(c, streams[|streams| - 1])
  }

  /** What is heard is the audio of the streams told of. */
  lemma {:induction false} HeardIsTold(c: Codec, replies: seq<Reply>)
    ensures Open(c, replies) == ToldBy(c, replies).open && Closed(c, replies) == Payloads(c, ToldBy(c, replies).closed)
    ensures Heard(c, replies) == Payloads(c, ToldBy(c, replies).closed) + Payload(c, ToldBy(c, replies).open)
  {
    hide Payload, UnitsFrom;
    if replies != [] {
      var front := replies[..|replies| - 1];
      HeardIsTold(c, front);
      NoUnitsNoAudio(c);
      OneMoreStream(c, ToldBy(c, front).closed, ToldBy(c, front).open);
    }
  }

  lemma NoUnitsNoAudio(c: Codec)
    ensures Payload(c, []) == []
  {
  }

  lemma OneMoreStream(c: Codec, streams: seq<seq<Unit>>, units: seq<Unit>)
    ensures Payloads(c, streams + [units]) == Payloads(c, streams) + Payload(c, units)
  {
    assert (streams + [units])[..|streams|] == streams;
  }

  /** `y` goes on where `x` stops. */
  predicate Continues(x: Told, y: Told) {
    || (x.closed == y.closed && x.open <= y.open)
    || (|x.closed| < |y.closed| && x.closed == y.closed[..|x.closed|] && x.open <= y.closed[|x.closed|])
  }

  lemma {:induction false} MoreRepliesContinue(c: Codec, replies: seq<Reply>, more: seq<Reply>)
    ensures Continues(ToldBy(c, replies), ToldBy(c, replies + more))
  {
    hide UnitsFrom;
    if more == [] {
      assert replies + more == replies;
    } else {
      MoreRepliesContinue(c, replies, more[..|more| - 1]);
      assert (replies + more)[..|replies + more| - 1] == replies + more[..|more| - 1];
    }
  }

  lemma PayloadGrows(c: Codec, units: seq<Unit>, all: seq<Unit>)
    requires units <= all
    ensures Payload(c, units) <= Payload(c, all)
  {
    hide Decoded;
    assert all == units + all[|units|..];
    DecodedExtends(c, units, all[|units|..]);
  }

  lemma {:induction false} PayloadsGrow(c: Codec, streams: seq<seq<Unit>>, k: nat)
    requires k < |streams|
    ensures Payloads(c, streams[..k]) + Payload(c, streams[k]) <= Payloads(c, streams)
  {
    hide Payload;
    if k < |streams| - 1 {
      var front := streams[..|streams| - 1];
      PayloadsGrow(c, front, k);
      assert front[..k] == streams[..k];
    }
  }

  /** More told, more heard: never other audio. */
  lemma HeardContinues(c: Codec, x: seq<Reply>, y: seq<Reply>)
    requires Continues(ToldBy(c, x), ToldBy(c, y))
    ensures Heard(c, x) <= Heard(c, y)
  {
    hide Payload, Payloads, Heard, ToldBy;
    HeardIsTold(c, x);
    HeardIsTold(c, y);
    var a, b := ToldBy(c, x), ToldBy(c, y);
    if a.closed == b.closed {
      PayloadGrows(c, a.open, b.open);
    } else {
      PayloadGrows(c, a.open, b.closed[|a.closed|]);
      PayloadsGrow(c, b.closed, |a.closed|);
    }
  }

  /** A reply split in two tells the same, as long as nothing before the split overruns. */
  lemma SplitReplyTells(c: Codec, replies: seq<Reply>, r: Reply, k: nat)
    requires 0 < k < |r.descs|
    requires forall i :: 0 <= i < k ==> Skipped(r.descs[i]) || !OverrunsBuffer(r.descs[i], r.bytes)
    ensures ToldBy(c, replies + [r.(descs := r.descs[..k])] + [r.(descs := r.descs[k..])]) == ToldBy(c, replies + [r])
  {
    var (r1, r2) := (r.(descs := r.descs[..k]), r.(descs := r.descs[k..]));
    SplitUnits(c, r, k, 0);
    LaterUnits(c, r, k, k);
    assert (replies + [r1] + [r2])[..|replies| + 1] == replies + [r1] && (replies + [r1])[..|replies|] == replies;
    assert (replies + [r])[..|replies|] == replies;
  }

  lemma {:induction false} SplitUnits(c: Codec, r: Reply, k: nat, i: nat)
    requires i <= k <= |r.descs|
    requires forall n :: i <= n < k ==> Skipped(r.descs[n]) || !OverrunsBuffer(r.descs[n], r.bytes)
    ensures UnitsFrom(c, r, i) == UnitsFrom(c, r.(descs := r.descs[..k]), i) + UnitsFrom(c, r, k)
    decreases k - i
  {
    hide Accepted;
    if i < k {
      SplitUnits(c, r, k, i + 1);
      SameUnit(r, r.(descs := r.descs[..k]), r.descs[i]);
    }
  }

  lemma {:induction false} LaterUnits(c: Codec, r: Reply, k: nat, i: nat)
    requires k <= i <= |r.descs|
    ensures UnitsFrom(c, r, i) == UnitsFrom(c, r.(descs := r.descs[k..]), i - k)
    decreases |r.descs| - i
  {
    hide Accepted;
    if i < |r.descs| {
      LaterUnits(c, r, k, i + 1);
      SameUnit(r, r.(descs := r.descs[k..]), r.descs[i]);
    }
  }

  lemma SameUnit(r: Reply, s: Reply, d: Desc)
    requires r.mem == s.mem
    ensures UnitAt(r, d) == UnitAt(s, d)
  {
  }

  // ---- which bytes a reply feeds

  function Bytes(units: seq<Unit>): seq<int> {
    if units == [] then [] else units[0] + Bytes(units[1..])
  }

  /** Descriptions of units that lie end to end from `start` on. */
  function Laid(start: nat, units: seq<Unit>): seq<Desc>
    decreases |units|
  {
    if units == [] then [] else [Desc(start, |units[0]|)] + Laid(start + |units[0]|, units[1..])
  }

  function OnlyAccepted(c: Codec, units: seq<Unit>): seq<Unit> {
    if units == [] then [] else (if Accepted(c, units[0]) then [units[0]] else []) + OnlyAccepted(c, units[1..])
  }

  ghost predicate InMemory(mem: nat -> int, start: nat, bytes: seq<int>) {
    forall n: nat :: n < |bytes| ==> mem(start + n) == bytes[n]
  }

  /** Units that lie end to end in memory, from anywhere in it, are fed as they are and in order,
      but for those the decoder refuses. */
  lemma LaidUnitsAreFed(c: Codec, r: Reply, start: nat, units: seq<Unit>)
    requires forall k :: 0 <= k < |units| ==> units[k] != []
    requires r.descs == Laid(start, units) && InMemory(r.mem, start, Bytes(units))
    requires start + |Bytes(units)| < WORD && (r.bytes == 0 || start + |Bytes(units)| <= r.bytes)
    ensures UnitsFrom(c, r, 0) == OnlyAccepted(c, units)
  {
    LaidFrom(c, r, start, units, 0);
  }

  lemma {:induction false} LaidFrom(c: Codec, r: Reply, start: nat, units: seq<Unit>, i: nat)
    requires forall k :: 0 <= k < |units| ==> units[k] != []
    requires i <= |r.descs| && r.descs[i..] == Laid(start, units) && InMemory(r.mem, start, Bytes(units))
    requires start + |Bytes(units)| < WORD && (r.bytes == 0 || start + |Bytes(units)| <= r.bytes)
    ensures UnitsFrom(c, r, i) == OnlyAccepted(c, units)
    decreases |units|
  {
    hide Accepted, InMemory, UnitAt;
    if units != [] {
      var u, rest := units[0], units[1..];
      assert r.descs[i] == r.descs[i..][0] == Desc(start, |u|);
      assert r.descs[i + 1..] == r.descs[i..][1..] == Laid(start + |u|, rest);
      FirstUnit(r, start, u, Bytes(rest));
      RestInMemory(r.mem, start, u, Bytes(rest));
      NoOverrun(r, start, |u|);
      LaidFrom(c, r, start + |u|, rest, i + 1);
    }
  }

  lemma NoOverrun(r: Reply, start: nat, size: nat)
    requires size > 0 && start + size < WORD && (r.bytes == 0 || start + size <= r.bytes)
    ensures !Skipped(Desc(start, size)) && !OverrunsBuffer(Desc(start, size), r.bytes)
  {
    assert start % WORD == start && (start + size) % WORD == start + size;
  }

  lemma FirstUnit(r: Reply, start: nat, u: Unit, rest: seq<int>)
    requires start < WORD && InMemory(r.mem, start, u + rest)
    ensures UnitAt(r, Desc(start, |u|)) == u
  {
    assert start % WORD == start;
    forall n: nat | n < |u| ensures r.mem(start + n) == u[n] {
      assert (u + rest)[n] == u[n];
    }
  }

  lemma RestInMemory(mem: nat -> int, start: nat, u: Unit, bytes: seq<int>)
    requires InMemory(mem, start, u + bytes)
    ensures InMemory(mem, start + |u|, bytes)
  {
    forall n: nat | n < |bytes| ensures mem(start + |u| + n) == bytes[n] {
      assert (u + bytes)[|u| + n] == bytes[n];
      assert mem(start + (|u| + n)) == bytes[n];
    }
  }

  /** A description with a negative offset or no bytes changes nothing. */
  lemma BadOffsetFeedsNothing(c: Codec, r: Reply, a: seq<Desc>, d: Desc, b: seq<Desc>)
    requires d.start < 0 || d.size == 0
    ensures UnitsFrom(c, r.(descs := a + [d] + b), 0) == UnitsFrom(c, r.(descs := a + b), 0)
  {
    var s, t := r.(descs := a + [d] + b), r.(descs := a + b);
    LaterUnits(c, s, |a| + 1, |a| + 1);
    LaterUnits(c, t, |a|, |a|);
    assert s.descs[|a| + 1..] == b == t.descs[|a|..];
    SameFront(c, s, t, |a|, 0);
  }

  /** The first description that runs past the reply's bytes ends it. */
  lemma OverrunEndsReply(c: Codec, r: Reply, a: seq<Desc>, d: Desc, b: seq<Desc>)
    requires 0 <= d.start && 0 < d.size && 0 < r.bytes < d.start + d.size < WORD
    ensures UnitsFrom(c, r.(descs := a + [d] + b), 0) == UnitsFrom(c, r.(descs := a), 0)
  {
    var s, t := r.(descs := a + [d] + b), r.(descs := a);
    assert d.start % WORD == d.start && (d.start + d.size) % WORD == d.start + d.size;
    assert s.descs[|a|] == d;
    SameFront(c, s, t, |a|, 0);
  }

  lemma {:induction false} SameFront(c: Codec, s: Reply, t: Reply, k: nat, i: nat)
    requires i <= k <= |s.descs| && k <= |t.descs| && s.descs[..k] == t.descs[..k] && s.mem == t.mem && s.bytes == t.bytes
    requires UnitsFrom(c, s, k) == UnitsFrom(c, t, k)
    ensures UnitsFrom(c, s, i) == UnitsFrom(c, t, i)
    decreases k - i
  {
    hide Accepted;
    if i < k {
      SameFront(c, s, t, k, i + 1);
      assert s.descs[i] == s.descs[..k][i] == t.descs[i];
      SameUnit(s, t, s.descs[i]);
    }
  }
}
