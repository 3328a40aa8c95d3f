/** A decoder of unknown latency: it may hold back up to `hold` frames and hands over the
    rest in pieces of its own choosing. */
module AacDecoder {
  import opened AacStream

  /** What a decoder that holds back at most `hold` frames may have let out of `fed` units once it is drained. */
  predicate Permitted(fed: nat, hold: nat, e: nat) {
    FRAME * (fed - hold) <= e <= FRAME * fed
  }

  class Decoder {
    const codec: Codec
    const hold: nat
    var fed: seq<Unit>
    var emitted: nat

    ghost predicate Valid()
      reads this
    {
      emitted <= FRAME * |fed|
    }

    constructor (codec: Codec, hold: nat)
      ensures Valid() && this.codec == codec && this.hold == hold && fed == [] && emitted == 0
    {
      this.codec := codec;
      this.hold := hold;
      fed := [];
      emitted := 0;
    }

    /** A new stream; whatever was held is forgotten. */
    method Begin()
      modifies this
      ensures Valid() && fed == [] && emitted == 0
    {
      fed := [];
      emitted := 0;
    }

    /** Feeding may already push samples out. */
    method Feed(u: Unit) returns (ok: bool, out: seq<Sample>)
      requires Valid()
      modifies this
      ensures Valid() && ok == Accepted(codec, u)
      ensures fed == if ok then old(fed) + [u] else old(fed)
      ensures old(emitted) <= emitted && out == Decoded(codec, fed)[old(emitted)..emitted]
    {
      ok := Accepted(codec, u);
      if ok {
        fed := fed + [u];
      }
      var upTo: nat :| emitted <= upTo <= FRAME * |fed|;
      out := Decoded(codec, fed)[emitted..upTo];
      emitted := upTo;
    }

    /** Collecting, with or without ending the stream: all but the held frames come out. */
    method Drain() returns (out: seq<Sample>)
      requires Valid()
      modifies this`emitted
      ensures Valid() && old(emitted) <= emitted && Permitted(|fed|, hold, emitted)
      ensures out == Decoded(codec, fed)[old(emitted)..emitted]
    {
      var least := if FRAME * (|fed| - hold) > emitted then FRAME * (|fed| - hold) else emitted;
      var upTo: nat :| least <= upTo <= FRAME * |fed|;
      out := Decoded(codec, fed)[emitted..upTo];
      emitted := upTo;
    }
  }
}
