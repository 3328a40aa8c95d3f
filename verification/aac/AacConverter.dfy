/** The converter: decoded samples that wait, what the stream has been fed and has given,
    and the refill that asks the engine for packets. */
module AacConverter {
  import opened AacStream
  import opened AacDecoder

  const ROUNDS: nat := 64

  function Min(a: nat, b: nat): nat { if a < b then a else b }

  function Past(n: nat): nat { if n <= PRIMING then 0 else n - PRIMING }

  /** The answers numbered `from` up to `to`. */
  ghost function Answers(answer: nat -> Reply, from: nat, to: nat): seq<Reply>
    requires from <= to
  {
    seq(to - from, k requires 0 <= k => answer(from + k))
  }

  lemma AnswersGrow(answer: nat -> Reply, from: nat, to: nat)
    requires from <= to
    ensures Answers(answer, from, to + 1) == Answers(answer, from, to) + [answer(to)]
  {
  }

  /** The newest unit twice over: what is fed again when a stream closes. */
  function Copies(last: Unit): seq<Unit> { if last == [] then [] else [last, last] }

  /** What the engine gets of a stream of `units` from a decoder that let out `e` samples by its
      close: the delay taken off, cut where the units' own audio ends. */
  function Delivered(c: Codec, units: seq<Unit>, last: Unit, e: nat): seq<Sample>
    requires e <= FRAME * |units + Copies(last)|
  {
    var t := Trim(Decoded(c, units + Copies(last))[..e]);
    t[..Min(|t|, Past(FRAME * |units|))]
  }

  class Converter {
    const dec: Decoder
    var pcm: seq<Sample>
    var pos: nat
    var primeLeft: nat
    var live: bool
    var fedCount: nat
    var given: nat
    var last: Unit
    /** What the engine's callback answers each time it is asked. */
    const answer: nat -> Reply
    var asked: nat
    /** Everything handed to the engine since the converter was made or reset at `since`. */
    ghost var handed: seq<Sample>
    /** What the streams closed since then have come to. */
    ghost var closed: seq<Sample>
    ghost var since: nat

    ghost function Seen(): seq<Reply>
      requires since <= asked
      reads this
    {
      Answers(answer, since, asked)
    }

    ghost predicate Valid()
      reads this, dec
      ensures Valid() ==> pos <= |pcm|
    {
      && dec.Valid()
      && since <= asked && pos <= |pcm|
      && (!live ==> Open(dec.codec, Seen()) == [])
      && (live ==> Streaming())
      && handed + pcm[pos..] == Ready()
      && (dec.hold <= 2 ==> closed == Closed(dec.codec, Seen()))
    }

    /** No stream is open and nothing waits. */
    predicate Drained()
      reads this
    {
      !live && pos == |pcm|
    }

    /** While a stream is open the counters describe it. */
    ghost predicate Streaming()
      requires since <= asked && dec.Valid()
      reads this, dec
    {
      && dec.fed == Open(dec.codec, Seen())
      && fedCount == |dec.fed|
      && primeLeft == PRIMING - Min(PRIMING, dec.emitted)
      && |handed| == |closed| + given
      && (last == [] <==> dec.fed == [])
      && (last != [] ==> Accepted(dec.codec, last))
    }

    /** What has been handed over or waits in `pcm`: all closed streams, and what the
        decoder has let out of the open one. */
    ghost function Ready(): seq<Sample>
      requires since <= asked && dec.Valid()
      requires live ==> dec.fed == Open(dec.codec, Seen())
      reads this, dec
    {
      closed + if live then Trim(Decoded(dec.codec, dec.fed)[..dec.emitted]) else []
    }

    constructor (dec: Decoder, answer: nat -> Reply)
      requires dec.Valid()
      ensures Valid() && this.dec == dec && this.answer == answer
      ensures asked == 0 && since == 0 && handed == closed == [] && !live && pos == |pcm|
    {
      this.dec := dec;
      this.answer := answer;
      pcm, pos := [], 0;
      primeLeft, live, fedCount, given, last := 0, false, 0, 0, [];
      asked := 0;
      handed, closed, since := [], [], 0;
    }

    /** Start over: no open stream, no waiting samples. */
    method Reset()
      requires Valid()
      modifies this, dec
      ensures Valid() && handed == closed == [] && since == asked == old(asked) && !live && pcm == [] && pos == 0
    {
      pcm, pos := [], 0;
      if live {
        dec.Begin();
        live := false;
      }
      handed, closed, since := [], [], asked;
    }

    /** Drop as many of the collected samples as are still to be dropped for the delay. */
    method DropPriming()
      requires pos == 0
      modifies this`pcm, this`primeLeft
      ensures pcm == old(pcm)[Min(old(primeLeft), |old(pcm)|)..]
      ensures primeLeft == old(primeLeft) - Min(old(primeLeft), |old(pcm)|)
    {
      if primeLeft > 0 && |pcm| > 0 {
        var drop := Min(primeLeft, |pcm|);
        pcm := pcm[drop..];
        primeLeft := primeLeft - drop;
      }
    }

    ghost predicate RemembersLast()
      reads this, dec
    {
      (last == [] <==> dec.fed == []) && (last != [] ==> Accepted(dec.codec, last))
    }

    method FeedOne(u: Unit)
      requires dec.Valid() && RemembersLast() && u != []
      modifies this`pcm, this`fedCount, this`last, dec
      ensures dec.Valid() && RemembersLast() && old(dec.emitted) <= dec.emitted
      ensures dec.fed == old(dec.fed) + if Accepted(dec.codec, u) then [u] else []
      ensures fedCount == old(fedCount) + |dec.fed| - |old(dec.fed)|
      ensures pcm == old(pcm) + Decoded(dec.codec, dec.fed)[old(dec.emitted)..dec.emitted]
    {
      var ok, out := dec.Feed(u);
      pcm := pcm + out;
      if ok {
        fedCount := fedCount + 1;
        last := u;
      }
    }

    /** Feed one reply's packets; nothing the decoder lets out is lost. */
    method FeedReply(r: Reply)
      requires dec.Valid() && RemembersLast()
      modifies this`pcm, this`fedCount, this`last, dec
      ensures dec.Valid() && RemembersLast() && old(dec.emitted) <= dec.emitted
      ensures dec.fed == old(dec.fed) + UnitsFrom(dec.codec, r, 0)
      ensures fedCount == old(fedCount) + |UnitsFrom(dec.codec, r, 0)|
      ensures pcm == old(pcm) + Decoded(dec.codec, dec.fed)[old(dec.emitted)..dec.emitted]
    {
      hide Accepted, Decoded, UnitAt;
      ghost var all := UnitsFrom(dec.codec, r, 0);
      var i := 0;
      while i < |r.descs|
        invariant 0 <= i <= |r.descs| && dec.Valid() && RemembersLast() && old(dec.emitted) <= dec.emitted
        invariant dec.fed + UnitsFrom(dec.codec, r, i) == old(dec.fed) + all
        invariant fedCount == old(fedCount) + |dec.fed| - |old(dec.fed)|
        invariant pcm == old(pcm) + Decoded(dec.codec, dec.fed)[old(dec.emitted)..dec.emitted]
      {
        var d := r.descs[i];
        if !Skipped(d) {
          if OverrunsBuffer(d, r.bytes) {
            break;
          }
          ghost var before, from := dec.fed, dec.emitted;
          var u := UnitAt(r, d);
          ghost var extra := if Accepted(dec.codec, u) then [u] else [];
          FeedOne(u);
          DecodedExtends(dec.codec, before, extra);
          SliceJoins(Decoded(dec.codec, before), Decoded(dec.codec, dec.fed), old(dec.emitted), from, dec.emitted);
          assert before + (extra + UnitsFrom(dec.codec, r, i + 1)) == dec.fed + UnitsFrom(dec.codec, r, i + 1);
        }
        i := i + 1;
      }
    }

    /** Open a stream if none is: a fresh decoder with its whole delay still to drop. */
    method OpenStream()
      requires Valid() && pcm == []
      modifies this`live, this`primeLeft, this`fedCount, this`given, this`last, dec
      ensures live && Valid()
    {
      if !live {
        dec.Begin();
        live, primeLeft, fedCount, given, last := true, PRIMING, 0, 0, [];
      }
    }

    /** Feed the newest unit once more, without counting it. */
    method Refeed(ghost from: nat)
      requires dec.Valid() && last != [] && Accepted(dec.codec, last) && from <= dec.emitted
      requires pcm == Decoded(dec.codec, dec.fed)[from..dec.emitted]
      modifies this`pcm, dec
      ensures dec.Valid() && old(dec.emitted) <= dec.emitted && dec.fed == old(dec.fed) + [last]
      ensures pcm == Decoded(dec.codec, dec.fed)[from..dec.emitted]
    {
      hide Accepted, Decoded;
      ghost var before, e := dec.fed, dec.emitted;
      var _, out := dec.Feed(last);
      pcm := pcm + out;
      DecodedExtends(dec.codec, before, [last]);
      SliceJoins(Decoded(dec.codec, before), Decoded(dec.codec, dec.fed), from, e, dec.emitted);
    }

    /** Feed the newest unit twice more and end the decoder's stream. */
    method Flush()
      requires dec.Valid() && RemembersLast() && pcm == []
      modifies this`pcm, dec
      ensures dec.Valid() && old(dec.emitted) <= dec.emitted && Permitted(|dec.fed|, dec.hold, dec.emitted)
      ensures dec.fed == old(dec.fed) + Copies(last)
      ensures pcm == Decoded(dec.codec, dec.fed)[old(dec.emitted)..dec.emitted]
    {
      hide Accepted, Decoded, Permitted;
      ghost var units, from := dec.fed, dec.emitted;
      var k := 0;
      while k < 2 && last != []
        invariant 0 <= k <= |Copies(last)| && dec.Valid() && from <= dec.emitted
        invariant dec.fed == units + Copies(last)[..k]
        invariant pcm == Decoded(dec.codec, dec.fed)[from..dec.emitted]
      {
        Refeed(from);
        k := k + 1;
      }
      ghost var mid := dec.emitted;
      var tail := dec.Drain();
      SliceJoins(Decoded(dec.codec, dec.fed), Decoded(dec.codec, dec.fed), from, mid, dec.emitted);
      pcm := pcm + tail;
    }

    /** Samples still to drop follow from how far the decoder has come. */
    ghost predicate PrimingTracked()
      reads this, dec
    {
      primeLeft == PRIMING - Min(PRIMING, dec.emitted)
    }

    /** Feed a reply and collect what the decoder has ready. */
    method FeedAndDrain(r: Reply)
      requires dec.Valid() && RemembersLast() && pcm == []
      modifies this`pcm, this`fedCount, this`last, dec
      ensures dec.Valid() && RemembersLast() && old(dec.emitted) <= dec.emitted
      ensures dec.fed == old(dec.fed) + UnitsFrom(dec.codec, r, 0) && Permitted(|dec.fed|, dec.hold, dec.emitted)
      ensures fedCount == old(fedCount) + |UnitsFrom(dec.codec, r, 0)|
      ensures pcm == Decoded(dec.codec, dec.fed)[old(dec.emitted)..dec.emitted]
    {
      hide Accepted, Decoded, UnitsFrom;
      ghost var from := dec.emitted;
      FeedReply(r);
      ghost var mid := dec.emitted;
      var out := dec.Drain();
      pcm := pcm + out;
      SliceJoins(Decoded(dec.codec, dec.fed), Decoded(dec.codec, dec.fed), from, mid, dec.emitted);
    }

    method Collect(r: Reply)
      requires dec.Valid() && RemembersLast() && PrimingTracked() && pcm == [] && pos == 0
      modifies this`pcm, this`primeLeft, this`fedCount, this`last, dec
      ensures dec.Valid() && RemembersLast() && PrimingTracked() && old(dec.emitted) <= dec.emitted
      ensures dec.fed == old(dec.fed) + UnitsFrom(dec.codec, r, 0) && Permitted(|dec.fed|, dec.hold, dec.emitted)
      ensures fedCount == old(fedCount) + |UnitsFrom(dec.codec, r, 0)|
      ensures Trim(Decoded(dec.codec, old(dec.fed))[..old(dec.emitted)]) + pcm == Trim(Decoded(dec.codec, dec.fed)[..dec.emitted])
    {
      hide Accepted, Decoded, UnitsFrom, Trim;
      ghost var from, d0 := dec.emitted, Decoded(dec.codec, dec.fed);
      DecodedExtends(dec.codec, dec.fed, UnitsFrom(dec.codec, r, 0));
      FeedAndDrain(r);
      ghost var d, raw, prime := Decoded(dec.codec, dec.fed), pcm, primeLeft;
      DropPriming();
      TrimJoin(d0, d, from, dec.emitted, raw, prime, pcm);
    }

    method CollectTail()
      requires dec.Valid() && RemembersLast() && PrimingTracked() && pcm == [] && pos == 0
      modifies this`pcm, this`primeLeft, dec
      ensures dec.Valid() && old(dec.emitted) <= dec.emitted && Permitted(|dec.fed|, dec.hold, dec.emitted)
      ensures dec.fed == old(dec.fed) + Copies(last)
      ensures Trim(Decoded(dec.codec, old(dec.fed))[..old(dec.emitted)]) + pcm == Trim(Decoded(dec.codec, dec.fed)[..dec.emitted])
    {
      hide Accepted, Decoded, Trim;
      ghost var units, from := dec.fed, dec.emitted;
      Flush();
      DecodedExtends(dec.codec, units, Copies(last));
      ghost var d0, d, raw, prime := Decoded(dec.codec, units), Decoded(dec.codec, dec.fed), pcm, primeLeft;
      DropPriming();
      TrimJoin(d0, d, from, dec.emitted, raw, prime, pcm);
    }

    /** A reply with packets, in a stream that is open and whose samples have all been handed over. */
    method TakeReply(r: Reply)
      requires Valid() && live && pcm == [] && !IsEnd(r) && r == answer(asked)
      modifies this`pcm, this`primeLeft, this`fedCount, this`last, this`asked, dec
      ensures Valid() && live && pos == 0 && asked == old(asked) + 1
      ensures dec.fed == old(dec.fed) + UnitsFrom(dec.codec, r, 0) && Permitted(|dec.fed|, dec.hold, dec.emitted)
    {
      hide Accepted, Decoded, UnitsFrom, IsEnd, Open, Closed, Answers, Trim;
      AnswersGrow(answer, since, asked);
      OpenGrows(dec.codec, Seen(), r);
      ghost var soFar := closed;
      ghost var part := Trim(Decoded(dec.codec, dec.fed)[..dec.emitted]);
      Collect(r);
      asked := asked + 1;
      assert handed == soFar + part;
      assert handed + pcm[pos..] == soFar + (part + pcm);
    }

    /** Collect an open stream's tail, clamped to what its units hold. */
    method CollectClamped()
      requires dec.Valid() && RemembersLast() && PrimingTracked() && pcm == [] && pos == 0
      requires fedCount == |dec.fed| && given == |Trim(Decoded(dec.codec, dec.fed)[..dec.emitted])|
      modifies this`pcm, this`primeLeft, dec
      ensures dec.Valid() && Permitted(|old(dec.fed) + Copies(last)|, dec.hold, dec.emitted)
      ensures Trim(Decoded(dec.codec, old(dec.fed))[..old(dec.emitted)]) + pcm == Delivered(dec.codec, old(dec.fed), last, dec.emitted)
    {
      hide Accepted, Decoded, Trim, Delivered;
      ghost var units, from := dec.fed, dec.emitted;
      CollectTail();
      ghost var tail := pcm;
      var due := Past(fedCount * FRAME);
      var avail := |pcm| - pos;
      if given + avail > due {
        pcm := pcm[..pos + if due > given then due - given else 0];
      }
      ClampedTail(dec.codec, units, last, from, dec.emitted, tail);
    }

    /** A reply without packets: feed copies until the held frames come out, and clamp what comes.
        That is the whole of the stream for decoders that hold at most two frames. */
    method CloseStream(r: Reply)
      requires Valid() && pcm == [] && IsEnd(r) && r == answer(asked)
      modifies this`pcm, this`primeLeft, this`fedCount, this`live, this`asked, this`closed, dec
      ensures Valid() && !live && pos == 0 && asked == old(asked) + 1
      ensures old(live) ==>
        && Permitted(|old(dec.fed) + Copies(last)|, dec.hold, dec.emitted)
        && closed == old(closed) + Delivered(dec.codec, old(dec.fed), last, dec.emitted)
      ensures !old(live) ==> closed == old(closed)
    {
      hide Accepted, Decoded, UnitsFrom, IsEnd, Open, Closed, Answers, Trim, Payload, Delivered;
      AnswersGrow(answer, since, asked);
      CloseGrows(dec.codec, Seen(), r);
      if live {
        ghost var units, from := dec.fed, dec.emitted;
        ghost var part := Trim(Decoded(dec.codec, units)[..from]);
        assert handed == closed + part;
        CollectClamped();
        assert handed + pcm == closed + (part + pcm);
        live, closed := false, closed + Delivered(dec.codec, units, last, dec.emitted);
        if dec.hold <= 2 {
          DeliveredIsPayload(dec.codec, units, last, dec.emitted);
        }
      } else {
        EmptyPayload(dec.codec);
      }
      asked := asked + 1;
    }

    /** Ask until something can be handed over, the stream is closed, or the rounds are used up. */
    method Refill()
      requires Valid() && pos == |pcm|
      modifies this, dec
      ensures Valid() && handed == old(handed) && since == old(since) && old(asked) < asked <= old(asked) + ROUNDS
      ensures pos == 0 && (pcm == [] && asked < old(asked) + ROUNDS ==> !live)
    {
      hide Accepted, Decoded, Open, Closed, Answers, Trim, UnitsFrom, IsEnd;
      pcm, pos := [], 0;
      var rounds := 0;
      while pcm == [] && rounds < ROUNDS
        invariant Valid() && pos == 0 && handed == old(handed) && since == old(since)
        invariant rounds <= ROUNDS && asked == old(asked) + rounds
        invariant pcm != [] ==> rounds > 0
      {
        rounds := rounds + 1;
        var r := answer(asked);
        if IsEnd(r) {
          CloseStream(r);
          break;
        }
        OpenStream();
        TakeReply(r);
      }
    }

    static method Write(out: array<Sample>, at: nat, piece: seq<Sample>)
      requires at + |piece| <= out.Length
      modifies out
      ensures out[..] == old(out[..at]) + piece + old(out[at + |piece|..])
    {
      forall k | 0 <= k < |piece| {
        out[at + k] := piece[k];
      }
    }

    /** Hand waiting samples over. */
    method Give(out: array<Sample>, at: nat, room: nat) returns (take: nat)
      requires Valid() && pos < |pcm| && 0 < room && at + room <= out.Length
      modifies this`pos, this`given, this`handed, out
      ensures Valid() && 0 < take <= room && pos <= |pcm|
      ensures take == |handed| - |old(handed)| && old(handed) <= handed
      ensures out[..] == old(out[..at]) + handed[|old(handed)|..] + old(out[at + take..])
    {
      hide Accepted, Decoded, Open, Closed, Answers, Trim;
      take := Min(|pcm| - pos, room);
      var piece := pcm[pos..pos + take];
      Write(out, at, piece);
      assert pcm[pos..] == piece + pcm[pos + take..];
      pos := pos + take;
      given := given + take;
      handed := handed + piece;
    }

    /** Hand over until the request is met or nothing more comes. */
    method Pour(want: nat, out: array<Sample>, source: bool) returns (give: nat)
      requires Valid() && want <= out.Length
      modifies this, dec, out
      ensures Valid() && since == old(since) && give <= want && (asked == old(asked) || source)
      ensures give < want ==> pos == |pcm|
      ensures give < want && source ==> old(asked) < asked && (!live || asked >= old(asked) + ROUNDS)
      ensures Poured(old(out[..]), old(handed), give, handed, out[..])
    {
      hide Valid, Poured;
      give := 0;
      NothingPoured(out[..], handed);
      while give < want
        invariant Valid() && since == old(since) && give <= want && (asked == old(asked) || source) && old(asked) <= asked
        invariant Poured(old(out[..]), old(handed), give, handed, out[..])
        decreases want - give
      {
        if pos == |pcm| && source {
          Refill();
        }
        if pos == |pcm| {
          break;
        }
        ghost var before, was := handed, out[..];
        var take := Give(out, give, want - give);
        PouredMore(old(out[..]), old(handed), before, handed, was, out[..], give, take);
        give := give + take;
      }
    }

    /** Fill the request as far as the source reaches, and write silence over the rest of it. */
    method Fill(request: nat, out: array<Sample>, source: bool) returns (give: nat)
      requires Valid()
      modifies this, dec, out
      ensures Valid() && since == old(since) && give <= Min(request, out.Length)
      ensures handed == old(handed) + out[..give]
      ensures forall k :: give <= k < Min(request, out.Length) ==> out[k] == 0
      ensures out[Min(request, out.Length)..] == old(out[Min(request, out.Length)..])
      ensures give < Min(request, out.Length) ==> pos == |pcm|
      ensures give < Min(request, out.Length) && source ==> old(asked) < asked && (!live || asked >= old(asked) + ROUNDS)
      ensures asked == old(asked) || source
    {
      hide Valid;
      var want := Min(request, out.Length);
      give := Pour(want, out, source);
      Write(out, give, seq(want - give, _ => 0));
    }
  }

  /** The audio handed over since `h` stands at the front of the buffer, then its old content. */
  ghost predicate Poured(was: seq<Sample>, h: seq<Sample>, give: nat, handed: seq<Sample>, out: seq<Sample>) {
    h <= handed && |handed| == |h| + give && give <= |was| && out == handed[|h|..] + was[give..]
  }

  lemma NothingPoured(was: seq<Sample>, h: seq<Sample>)
    ensures Poured(was, h, 0, h, was)
  {
  }

  /** One more piece written after what was there. */
  lemma PouredMore(was: seq<Sample>, h: seq<Sample>, h1: seq<Sample>, h2: seq<Sample>,
                   o1: seq<Sample>, o2: seq<Sample>, give: nat, take: nat)
    requires Poured(was, h, give, h1, o1)
    requires h1 <= h2 && |h2| == |h1| + take && give + take <= |was|
    requires o2 == o1[..give] + h2[|h1|..] + o1[give + take..]
    ensures Poured(was, h, give + take, h2, o2)
  {
  }

  /** What has been handed over is always the beginning of what the engine's data says,
      and all of it once the last stream is closed and drained, for decoders that hold at most two frames. */
  lemma HandedIsHeard(a: Converter)
    requires a.Valid() && a.dec.hold <= 2
    ensures a.handed <= Heard(a.dec.codec, a.Seen())
    ensures a.Drained() ==> a.handed == Heard(a.dec.codec, a.Seen())
  {
    hide Open, Closed, Decoded;
    var c := a.dec.codec;
    if a.live {
      var d := Decoded(c, a.dec.fed);
      TrimTake(d, a.dec.emitted);
      assert Trim(d[..a.dec.emitted]) <= Trim(d);
      assert a.handed <= a.handed + a.pcm[a.pos..] == a.Ready() <= Heard(c, a.Seen());
    } else {
      EmptyPayload(c);
      assert a.handed <= a.handed + a.pcm[a.pos..] == Heard(c, a.Seen());
    }
  }

  /** Decoder latency, how it splits its output, request sizes, how the engine batches its packets
      and how often it has been asked: none of it changes the audio.  If what one engine has told
      goes on where the other stops, so does what is handed over, as far as each has come. */
  lemma DecoderIndependence(a: Converter, b: Converter)
    requires a.Valid() && b.Valid() && a.dec.codec == b.dec.codec && a.dec.hold <= 2 && b.dec.hold <= 2
    requires Continues(ToldBy(a.dec.codec, a.Seen()), ToldBy(b.dec.codec, b.Seen()))
    ensures a.handed <= b.handed || b.handed <= a.handed
    ensures b.Drained() ==> a.handed <= b.handed
    ensures ToldBy(a.dec.codec, a.Seen()) == ToldBy(b.dec.codec, b.Seen()) && a.Drained() && b.Drained() ==> a.handed == b.handed
  {
    hide Heard, ToldBy, Continues;
    var c := a.dec.codec;
    HandedIsHeard(a);
    HandedIsHeard(b);
    HeardContinues(c, a.Seen(), b.Seen());
    if ToldBy(c, a.Seen()) == ToldBy(c, b.Seen()) {
      HeardIsTold(c, a.Seen());
      HeardIsTold(c, b.Seen());
    }
  }

  /** In particular over one engine, wherever each converter stands. */
  lemma SameEngineSameAudio(a: Converter, b: Converter)
    requires a.Valid() && b.Valid() && a.dec.codec == b.dec.codec && a.dec.hold <= 2 && b.dec.hold <= 2
    requires a.answer == b.answer && a.since == b.since
    ensures a.handed <= b.handed || b.handed <= a.handed
    ensures a.asked <= b.asked && b.Drained() ==> a.handed <= b.handed
    ensures a.asked == b.asked && a.Drained() && b.Drained() ==> a.handed == b.handed
  {
    hide Heard, ToldBy, Continues;
    if a.asked <= b.asked {
      LaterAnswersContinue(a.dec.codec, a.answer, a.since, a.asked, b.asked);
      DecoderIndependence(a, b);
    } else {
      LaterAnswersContinue(a.dec.codec, a.answer, a.since, b.asked, a.asked);
      DecoderIndependence(b, a);
    }
  }

  lemma LaterAnswersContinue(c: Codec, answer: nat -> Reply, since: nat, i: nat, j: nat)
    requires since <= i <= j
    ensures Continues(ToldBy(c, Answers(answer, since, i)), ToldBy(c, Answers(answer, since, j)))
  {
    hide ToldBy, Continues;
    assert Answers(answer, since, j) == Answers(answer, since, i) + Answers(answer, i, j);
    MoreRepliesContinue(c, Answers(answer, since, i), Answers(answer, i, j));
  }

  /** Two copies of the newest unit complete a stream, whatever the decoder lets out within its
      latency, exactly when it holds at most two frames or the stream is all delay. */
  lemma TwoCopiesSuffice(c: Codec, units: seq<Unit>, u: Unit, hold: nat)
    requires units != [] && u != []
    ensures (forall e: nat | Permitted(|units| + 2, hold, e) :: Delivered(c, units, u, e) == Payload(c, units))
       <==> hold <= 2 || FRAME * |units| <= PRIMING
  {
    hide Decoded, Delivered;
    var n := FRAME * |units|;
    if hold <= 2 || n <= PRIMING {
      forall e: nat | Permitted(|units| + 2, hold, e) ensures Delivered(c, units, u, e) == Payload(c, units) {
        if hold <= 2 {
          DeliveredIsPayload(c, units, u, e);
        } else {
          DeliveredLen(c, units, u, e);
        }
      }
    } else {
      var least: nat := if |units| + 2 <= hold then 0 else FRAME * (|units| + 2 - hold);
      assert Permitted(|units| + 2, hold, least) && least < n;
      DeliveredLen(c, units, u, least);
    }
  }

  /** A decoder that holds three frames loses a whole stream of three units, 960 samples of audio. */
  lemma ThreeHeldFramesLose(c: Codec, units: seq<Unit>, u: Unit)
    requires |units| == 3 && u != []
    ensures Permitted(5, 3, 2 * FRAME)
    ensures Delivered(c, units, u, 2 * FRAME) == [] && |Payload(c, units)| == 960
  {
    hide Decoded, Delivered;
    DeliveredLen(c, units, u, 2 * FRAME);
  }

  lemma DeliveredLen(c: Codec, units: seq<Unit>, u: Unit, e: nat)
    requires e <= FRAME * |units + Copies(u)|
    ensures |Delivered(c, units, u, e)| == Min(Past(e), Past(FRAME * |units|))
    ensures |Payload(c, units)| == Past(FRAME * |units|)
  {
    hide Decoded;
  }

  /** Once the decoder has let the units' own frames go, the copies after them change nothing. */
  lemma DeliveredIsPayload(c: Codec, units: seq<Unit>, u: Unit, e: nat)
    requires FRAME * |units| <= e <= FRAME * |units + Copies(u)|
    ensures Delivered(c, units, u, e) == Payload(c, units)
  {
    hide Decoded;
    var all := Decoded(c, units + Copies(u));
    DecodedExtends(c, units, Copies(u));
    TrimTake(all, e);
    TrimTake(all, FRAME * |units|);
    assert all[..FRAME * |units|] == Decoded(c, units);
  }

  lemma EmptyPayload(c: Codec)
    ensures Payload(c, []) == []
  {
  }

  /** The clamp on the collected tail leaves exactly what is to be delivered: no copy escapes. */
  lemma ClampedTail(c: Codec, units: seq<Unit>, u: Unit, from: nat, upTo: nat, tail: seq<Sample>)
    requires from <= FRAME * |units| && from <= upTo <= FRAME * |units + Copies(u)|
    requires Trim(Decoded(c, units)[..from]) + tail == Trim(Decoded(c, units + Copies(u))[..upTo])
    ensures var given, due := |Trim(Decoded(c, units)[..from])|, Past(FRAME * |units|);
      && given <= due
      && Trim(Decoded(c, units)[..from]) + (if given + |tail| > due then tail[..due - given] else tail)
         == Delivered(c, units, u, upTo)
  {
    hide Decoded;
    var given, due := Trim(Decoded(c, units)[..from]), Past(FRAME * |units|);
    TrimTake(Decoded(c, units), from);
    if |given| + |tail| > due {
      assert given + tail[..due - |given|] == (given + tail)[..due];
    }
  }

  lemma OpenGrows(c: Codec, seen: seq<Reply>, r: Reply)
    requires !IsEnd(r)
    ensures Open(c, seen + [r]) == Open(c, seen) + UnitsFrom(c, r, 0) && Closed(c, seen + [r]) == Closed(c, seen)
  {
    assert (seen + [r])[..|seen|] == seen;
  }

  lemma CloseGrows(c: Codec, seen: seq<Reply>, r: Reply)
    requires IsEnd(r)
    ensures Open(c, seen + [r]) == [] && Closed(c, seen + [r]) == Closed(c, seen) + Payload(c, Open(c, seen))
  {
    assert (seen + [r])[..|seen|] == seen;
  }

  lemma SliceJoins(a: seq<Sample>, b: seq<Sample>, i: nat, j: nat, k: nat)
    requires a <= b && i <= j <= |a| && j <= k <= |b|
    ensures a[i..j] + b[j..k] == b[i..k]
  {
  }

  /** Dropping what is left of the delay from each collected piece drops it from the whole, once. */
  lemma TrimJoin(a: seq<Sample>, b: seq<Sample>, i: nat, k: nat, raw: seq<Sample>, prime: nat, piece: seq<Sample>)
    requires a <= b && i <= |a| && i <= k <= |b|
    requires raw == b[i..k] && prime == PRIMING - Min(PRIMING, i) && piece == raw[Min(prime, |raw|)..]
    ensures Trim(a[..i]) + piece == Trim(b[..k])
    ensures prime - Min(prime, |raw|) == PRIMING - Min(PRIMING, k)
  {
    assert a[..i] == b[..i];
    if k <= PRIMING {
      assert piece == [];
    } else if i <= PRIMING {
      assert piece == b[i..k][PRIMING - i..] == b[PRIMING..k] == b[..k][PRIMING..];
    } else {
      assert piece == b[i..k];
      assert b[..i][PRIMING..] + b[i..k] == b[..k][PRIMING..];
    }
  }
}
