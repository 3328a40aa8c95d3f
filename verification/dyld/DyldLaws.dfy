/** Encoded programs are walked to exactly what their opcodes mean. */
module DyldLaws {
  import opened Wrappers
  import opened DyldLeb
  import opened DyldWalk

  // ---- counted opcodes

  lemma StepMod(base: nat, off: nat, d: nat)
    ensures (base + (off % WORD)) % WORD == (base + off) % WORD
    ensures (off % WORD + d) % WORD == (off + d) % WORD
  {
  }

  /** The fixup `d` bytes on from the cursor. */
  function Spaced(segs: seq<nat>, c: Cursor, d: nat): Fixup {
    Fixup(((if c.seg < |segs| then segs[c.seg] else 0) + c.off + d) % WORD, c.type_, c.sym, c.addend, c.weakImport)
  }

  /** A counted opcode makes evenly spaced fixups, wrapping at the word, or fails on its first. */
  lemma {:induction false} CountedAddresses(segs: seq<nat>, c: Cursor, count: nat, skip: nat)
    requires c.off < WORD
    ensures Repeated(segs, c, count, skip).Some? <==> count == 0 || c.seg < |segs|
    ensures Repeated(segs, c, count, skip).Some? ==>
      var (c', fs) := Repeated(segs, c, count, skip).value;
      && c' == c.(off := (c.off + count * (4 + skip)) % WORD) && |fs| == count
      && forall k :: 0 <= k < count ==> fs[k] == Spaced(segs, c, k * (4 + skip))
  {
    hide At, Moved, Spaced;
    if count > 0 {
      CountedAddresses(segs, c, count - 1, skip);
      var d := (count - 1) * (4 + skip);
      assert count * (4 + skip) == d + (4 + skip);
      SpacedStep(segs, c, d, 4 + skip);
    } else {
      assert c.(off := c.off % WORD) == c;
    }
  }

  lemma SpacedStep(segs: seq<nat>, c: Cursor, d: nat, m: nat)
    ensures var front := c.(off := (c.off + d) % WORD);
      && At(segs, front) == (if c.seg < |segs| then Some(Spaced(segs, c, d)) else None)
      && Moved(front, m) == c.(off := (c.off + (d + m)) % WORD)
  {
    StepMod(if c.seg < |segs| then segs[c.seg] else 0, c.off + d, m);
  }

  // ---- a reference encoder

  ghost predicate NoZero(name: Name) { forall k :: 0 <= k < |name| ==> name[k] != 0 }

  /** What one opcode can carry; only bind streams have symbols and addends. */
  ghost predicate Encodable(kind: Kind, op: Op) {
    match op
    case Done => false
    case Ordinal => kind != Rebase
    case SetType(imm) => imm < 16
    case SetSegment(seg, off) => seg < 16 && off < WORD
    case Add(n) => n < WORD
    case Times(count, skip) => count < WORD && skip < WORD
    case SetSymbol(_, name) => kind != Rebase && NoZero(name)
    case SetAddend(a) => kind != Rebase && -(WORD / 2) <= a < WORD / 2
  }

  function EncodeOp(kind: Kind, op: Op): seq<Byte>
    requires Encodable(kind, op)
  {
    match op
    case Ordinal => [0x11]
    case SetType(imm) => if kind == Rebase then [0x10 + imm] else [0x50 + imm]
    case SetSegment(seg, off) => (if kind == Rebase then [0x20 + seg] else [0x70 + seg]) + EncodeUnsigned(off)
    case Add(n) => (if kind == Rebase then [0x30] else [0x80]) + EncodeUnsigned(n)
    case Times(count, skip) =>
      (if kind == Rebase then [0x80] else [0xC0]) + (EncodeUnsigned(count) + EncodeUnsigned(skip))
    case SetSymbol(w, name) => [if w then 0x41 else 0x40] + (name + [0])
    case SetAddend(a) => [0x60] + EncodeSigned(a)
  }

  lemma {:induction false} NameEnds(name: Name, rest: seq<Byte>)
    requires NoZero(name)
    ensures NameLen(name + [0] + rest) == Some(|name|)
  {
    var s := name + [0] + rest;
    if name != [] {
      NameEnds(name[1..], rest);
      assert s[1..] == name[1..] + [0] + rest;
    }
  }

  lemma TwoNumbers(a: nat, b: nat, rest: seq<Byte>)
    requires a < WORD && b < WORD
    ensures WithTwo(EncodeUnsigned(a) + EncodeUnsigned(b) + rest)
         == Some((Times(a, b), 1 + |EncodeUnsigned(a) + EncodeUnsigned(b)|))
  {
    hide Unsigned, EncodeUnsigned;
    var s := EncodeUnsigned(a) + EncodeUnsigned(b) + rest;
    assert s == EncodeUnsigned(a) + (EncodeUnsigned(b) + rest);
    UnsignedRoundTrip(a, EncodeUnsigned(b) + rest);
    UnsignedRoundTrip(b, rest);
    assert s[|EncodeUnsigned(a)|..] == EncodeUnsigned(b) + rest;
  }

  lemma NumberEncoded(n: nat, rest: seq<Byte>, op: nat -> Op)
    requires n < WORD
    ensures WithNumber(EncodeUnsigned(n) + rest, op) == Some((op(n), 1 + |EncodeUnsigned(n)|))
  {
    hide Unsigned, EncodeUnsigned;
    UnsignedRoundTrip(n, rest);
  }

  /** An encoded opcode is decoded to itself, whatever follows it. */
  lemma DecodeEncoded(kind: Kind, op: Op, rest: seq<Byte>)
    requires Encodable(kind, op)
    ensures Decode(kind, EncodeOp(kind, op) + rest) == Some((op, |EncodeOp(kind, op)|))
  {
    hide Unsigned, Signed, EncodeUnsigned, EncodeSigned, NameLen, WithTwo, WithNumber;
    var e := EncodeOp(kind, op);
    var tail := (e + rest)[1..];
    assert tail == e[1..] + rest;
    match op
    case SetSegment(seg, off) =>
      assert e[1..] == EncodeUnsigned(off);
      NumberEncoded(off, rest, (n: nat) => SetSegment(seg, n));
    case Add(n) =>
      assert e[1..] == EncodeUnsigned(n);
      NumberEncoded(n, rest, (n: nat) => Add(n));
    case Times(count, skip) =>
      assert e[1..] == EncodeUnsigned(count) + EncodeUnsigned(skip);
      TwoNumbers(count, skip, rest);
    case SetSymbol(w, name) =>
      assert e[1..] == name + [0];
      NameEnds(name, rest);
      assert tail[..|name|] == name;
    case SetAddend(a) =>
      assert e[1..] == EncodeSigned(a);
      SignedRoundTrip(a, rest);
    case _ =>
  }

  // ---- whole programs

  ghost predicate Program(kind: Kind, ops: seq<Op>) {
    forall k :: 0 <= k < |ops| ==> Encodable(kind, ops[k])
  }

  function Encode(kind: Kind, ops: seq<Op>): seq<Byte>
    requires Program(kind, ops)
  {
    if ops == [] then [] else EncodeOp(kind, ops[0]) + Encode(kind, ops[1..])
  }

  /** What a program's opcodes mean, from a cursor on. */
  function RunOps(segs: seq<nat>, c: Cursor, ops: seq<Op>): Walked
    decreases |ops|
  {
    if ops == [] then Walked([], true)
    else
      var first := RunOp(segs, c, ops[0]);
      if first.None? then Walked([], false) else Joined(first.value.1, RunOps(segs, first.value.0, ops[1..]))
  }

  lemma WalkStep(kind: Kind, segs: seq<nat>, op: Op, rest: seq<Byte>, c: Cursor)
    requires Encodable(kind, op)
    ensures Walk(kind, segs, EncodeOp(kind, op) + rest, c) ==
      (var run := RunOp(segs, c, op); if run.None? then Walked([], false) else Joined(run.value.1, Walk(kind, segs, rest, run.value.0)))
  {
    hide Decode, EncodeOp, RunOp;
    var e := EncodeOp(kind, op);
    DecodeEncoded(kind, op, rest);
    DecodedIsSome(kind, op);
    assert (e + rest)[|e|..] == rest;
  }

  lemma DecodedIsSome(kind: Kind, op: Op)
    requires Encodable(kind, op)
    ensures EncodeOp(kind, op) != [] && !op.Done?
  {
  }

  /** Walking an encoded program, then the bytes after it from wherever the program left the cursor. */
  lemma {:induction false} WalkProgram(kind: Kind, segs: seq<nat>, ops: seq<Op>, c: Cursor)
    requires Program(kind, ops)
    ensures Walk(kind, segs, Encode(kind, ops) + [0], c) == RunOps(segs, c, ops)
  {
    hide EncodeOp, RunOp, Encodable;
    if ops == [] {
      WalkEnd(kind, segs, c);
    } else {
      var rest := Encode(kind, ops[1..]) + [0];
      assert Encode(kind, ops) + [0] == EncodeOp(kind, ops[0]) + rest;
      WalkStep(kind, segs, ops[0], rest, c);
      var run := RunOp(segs, c, ops[0]);
      if run.Some? {
        WalkProgram(kind, segs, ops[1..], run.value.0);
      }
    }
  }

  lemma WalkEnd(kind: Kind, segs: seq<nat>, c: Cursor)
    ensures Walk(kind, segs, Encode(kind, []) + [0], c) == Walked([], true)
  {
    var s: seq<Byte> := [0];
    assert Encode(kind, []) + [0] == s;
    assert s[1..] == [];
    assert Decode(kind, s) == Some((Done, 1));
    assert Walk(kind, segs, [], START) == Walked([], true);
    JoinNothing(Walked([], true));
    assert RunOp(segs, c, Done) == Some((START, []));
    assert Walk(kind, segs, s, c) == Walked([], true);
  }

  /** Where a program leaves the cursor. */
  function CursorAfter(segs: seq<nat>, c: Cursor, ops: seq<Op>): Cursor
    decreases |ops|
  {
    if ops == [] || RunOp(segs, c, ops[0]).None? then c
    else CursorAfter(segs, RunOp(segs, c, ops[0]).value.0, ops[1..])
  }

  /** A program cut off by an opcode that is unknown or cut short: everything before it is handed
      over, one fixup more if that opcode makes it before reading on, and the walk stops. */
  lemma {:induction false} StopsAtTheError(kind: Kind, segs: seq<nat>, ops: seq<Op>, bad: seq<Byte>, c: Cursor)
    requires Program(kind, ops) && bad != [] && Decode(kind, bad).None? && RunOps(segs, c, ops).ended
    ensures Walk(kind, segs, Encode(kind, ops) + bad, c)
         == Walked(RunOps(segs, c, ops).fixups + Early(kind, segs, bad[0], CursorAfter(segs, c, ops)), false)
  {
    hide EncodeOp, RunOp, Encodable, Decode, Early;
    if ops == [] {
      assert Encode(kind, ops) + bad == bad;
    } else {
      var rest := Encode(kind, ops[1..]) + bad;
      assert Encode(kind, ops) + bad == EncodeOp(kind, ops[0]) + rest;
      WalkStep(kind, segs, ops[0], rest, c);
      var run := RunOp(segs, c, ops[0]).value;
      StopsAtTheError(kind, segs, ops[1..], bad, run.0);
      var later := RunOps(segs, run.0, ops[1..]);
      assert run.1 + (later.fixups + Early(kind, segs, bad[0], CursorAfter(segs, c, ops)))
          == (run.1 + later.fixups) + Early(kind, segs, bad[0], CursorAfter(segs, c, ops));
    }
  }

  // ---- a lazy stream

  /** In a lazy stream a program is followed by the rest of the stream from the reset state. */
  lemma {:induction false} LazySplits(segs: seq<nat>, ops: seq<Op>, rest: seq<Byte>, c: Cursor)
    requires Program(Lazy, ops)
    ensures Walk(Lazy, segs, Encode(Lazy, ops) + [0] + rest, c) == Both(RunOps(segs, c, ops), Walk(Lazy, segs, rest, START))
  {
    hide EncodeOp, RunOp, Encodable;
    var s := Encode(Lazy, ops) + [0] + rest;
    var later := Walk(Lazy, segs, rest, START);
    if ops == [] {
      LazyDone(segs, rest, c);
      assert s == [0] + rest;
    } else {
      var mid := Encode(Lazy, ops[1..]) + [0] + rest;
      assert s == EncodeOp(Lazy, ops[0]) + mid;
      WalkStep(Lazy, segs, ops[0], mid, c);
      var run := RunOp(segs, c, ops[0]);
      if run.Some? {
        LazySplits(segs, ops[1..], rest, run.value.0);
        BothJoined(run.value.1, RunOps(segs, run.value.0, ops[1..]), later);
      }
    }
  }

  /** One walk after another, unless the first stopped on an error. */
  function Both(a: Walked, b: Walked): Walked {
    if a.ended then Joined(a.fixups, b) else a
  }

  lemma BothJoined(a: seq<Fixup>, b: Walked, c: Walked)
    ensures Joined(a, Both(b, c)) == Both(Joined(a, b), c)
  {
    assert a + (b.fixups + c.fixups) == (a + b.fixups) + c.fixups;
  }

  lemma LazyDone(segs: seq<nat>, rest: seq<Byte>, c: Cursor)
    ensures Walk(Lazy, segs, [0] + rest, c) == Both(Walked([], true), Walk(Lazy, segs, rest, START))
  {
    var s: seq<Byte> := [0] + rest;
    assert s[0] == 0 && s[1..] == rest;
    assert Decode(Lazy, s) == Some((Done, 1));
    JoinNothing(Walk(Lazy, segs, rest, START));
  }

  ghost predicate Programs(ps: seq<seq<Op>>) {
    forall k :: 0 <= k < |ps| ==> Program(Lazy, ps[k])
  }

  /** Programs one after another, each ended by its own `Done`. */
  function EncodeLazy(ps: seq<seq<Op>>): seq<Byte>
    requires Programs(ps)
  {
    if ps == [] then [] else Encode(Lazy, ps[0]) + [0] + EncodeLazy(ps[1..])
  }

  function RunEach(segs: seq<nat>, ps: seq<seq<Op>>): Walked {
    if ps == [] then Walked([], true) else Both(RunOps(segs, START, ps[0]), RunEach(segs, ps[1..]))
  }

  /** Walking a lazy stream is walking each of its programs from the reset state. */
  lemma {:induction false} LazyIsEachProgram(segs: seq<nat>, ps: seq<seq<Op>>)
    requires Programs(ps)
    ensures Walk(Lazy, segs, EncodeLazy(ps), START) == RunEach(segs, ps)
  {
    hide RunOps, Encode, Program;
    if ps != [] {
      assert Program(Lazy, ps[0]);
      LazyIsEachProgram(segs, ps[1..]);
      LazySplits(segs, ps[0], EncodeLazy(ps[1..]), START);
    }
  }

  // ---- any list of fixups

  /** A fixup as a place to write: a segment, an offset and what to put there. */
  datatype Entry = Entry(type_: nat, seg: nat, off: nat, name: Name, addend: int, weakImport: bool)

  ghost predicate Fits(segs: seq<nat>, e: Entry) {
    && e.type_ < 16 && e.seg < 16 && e.seg < |segs| && e.off < WORD
    && NoZero(e.name) && -(WORD / 2) <= e.addend < WORD / 2
  }

  function OpsOf(kind: Kind, e: Entry): seq<Op> {
    (if kind == Rebase then [] else [SetSymbol(e.weakImport, e.name), SetAddend(e.addend)]) +
    [SetType(e.type_), SetSegment(e.seg, e.off), Times(1, 0)]
  }

  function OpsOfAll(kind: Kind, es: seq<Entry>): seq<Op> {
    if es == [] then [] else OpsOf(kind, es[0]) + OpsOfAll(kind, es[1..])
  }

  function FixupOf(kind: Kind, segs: seq<nat>, e: Entry): Fixup
    requires e.seg < |segs|
  {
    var addr := (segs[e.seg] + e.off) % WORD;
    if kind == Rebase then Fixup(addr, e.type_, None, 0, false)
    else Fixup(addr, e.type_, Some(e.name), e.addend, e.weakImport)
  }

  ghost predicate AllFit(segs: seq<nat>, es: seq<Entry>) {
    forall k :: 0 <= k < |es| ==> Fits(segs, es[k])
  }

  /** A rebase stream never gives its cursor a symbol. */
  predicate Plain(kind: Kind, c: Cursor) { kind == Rebase ==> c.sym == None && c.addend == 0 && !c.weakImport }

  lemma OneEntry(kind: Kind, segs: seq<nat>, e: Entry, rest: seq<Op>, c: Cursor) returns (c': Cursor)
    requires Fits(segs, e) && Plain(kind, c)
    ensures Program(kind, OpsOf(kind, e)) && Plain(kind, c')
    ensures RunOps(segs, c, OpsOf(kind, e) + rest) == Joined([FixupOf(kind, segs, e)], RunOps(segs, c', rest))
  {
    hide RunOps, FixupOf, Moved, At, Repeated, Joined;
    var named := if kind == Rebase then c else c.(sym := Some(e.name), weakImport := e.weakImport, addend := e.addend);
    c' := OnePlace(kind, segs, e, rest, named);
    var mid := [SetType(e.type_)] + ([SetSegment(e.seg, e.off)] + ([Times(1, 0)] + rest));
    if kind == Rebase {
      assert OpsOf(kind, e) + rest == mid;
    } else {
      RunQuiet(segs, c, SetSymbol(e.weakImport, e.name), [SetAddend(e.addend)] + mid);
      RunQuiet(segs, c.(sym := Some(e.name), weakImport := e.weakImport), SetAddend(e.addend), mid);
      assert OpsOf(kind, e) + rest == [SetSymbol(e.weakImport, e.name)] + ([SetAddend(e.addend)] + mid);
    }
  }

  /** Type, place and one fixup there, whatever the symbol in hand. */
  lemma OnePlace(kind: Kind, segs: seq<nat>, e: Entry, rest: seq<Op>, c: Cursor) returns (c': Cursor)
    requires e.seg < |segs| && Plain(kind, c)
    requires kind != Rebase ==> c.sym == Some(e.name) && c.weakImport == e.weakImport && c.addend == e.addend
    ensures Plain(kind, c')
    ensures RunOps(segs, c, [SetType(e.type_)] + ([SetSegment(e.seg, e.off)] + ([Times(1, 0)] + rest)))
         == Joined([FixupOf(kind, segs, e)], RunOps(segs, c', rest))
  {
    hide RunOps, Joined;
    var placed := c.(type_ := e.type_, seg := e.seg, off := e.off);
    c' := Moved(placed, 4);
    RunQuiet(segs, c, SetType(e.type_), [SetSegment(e.seg, e.off)] + ([Times(1, 0)] + rest));
    RunQuiet(segs, c.(type_ := e.type_), SetSegment(e.seg, e.off), [Times(1, 0)] + rest);
    RunPlace(segs, placed, FixupOf(kind, segs, e), rest);
  }

  lemma RunPlace(segs: seq<nat>, c: Cursor, f: Fixup, rest: seq<Op>)
    requires At(segs, c) == Some(f)
    ensures RunOps(segs, c, [Times(1, 0)] + rest) == Joined([f], RunOps(segs, Moved(c, 4), rest))
  {
    hide At, Moved;
    assert Repeated(segs, c, 0, 0) == Some((c, []));
    assert [] + [f] == [f];
    assert Repeated(segs, c, 1, 0) == Some((Moved(c, 4), [f]));
    assert ([Times(1, 0)] + rest)[1..] == rest;
  }

  /** An opcode that makes no fixup only moves the cursor. */
  lemma RunQuiet(segs: seq<nat>, c: Cursor, op: Op, rest: seq<Op>)
    requires !op.Times?
    ensures RunOps(segs, c, [op] + rest) == RunOps(segs, RunOp(segs, c, op).value.0, rest)
  {
    assert ([op] + rest)[1..] == rest;
    JoinNothing(RunOps(segs, RunOp(segs, c, op).value.0, rest));
  }

  function FixupsOf(kind: Kind, segs: seq<nat>, es: seq<Entry>): seq<Fixup>
    requires forall k :: 0 <= k < |es| ==> es[k].seg < |segs|
  {
    seq(|es|, i requires 0 <= i < |es| => FixupOf(kind, segs, es[i]))
  }

  lemma {:induction false} EntriesRun(kind: Kind, segs: seq<nat>, es: seq<Entry>, c: Cursor)
    requires AllFit(segs, es) && Plain(kind, c)
    ensures Program(kind, OpsOfAll(kind, es))
    ensures RunOps(segs, c, OpsOfAll(kind, es)) == Walked(FixupsOf(kind, segs, es), true)
  {
    hide RunOps, OpsOf, Encodable, FixupOf;
    if es == [] {
      NothingRuns(segs, c);
    } else {
      var c' := OneEntry(kind, segs, es[0], OpsOfAll(kind, es[1..]), c);
      EntriesRun(kind, segs, es[1..], c');
      assert [FixupOf(kind, segs, es[0])] + FixupsOf(kind, segs, es[1..]) == FixupsOf(kind, segs, es);
    }
  }

  lemma NothingRuns(segs: seq<nat>, c: Cursor)
    ensures RunOps(segs, c, []) == Walked([], true)
  {
  }

  /** Any list of fixups comes back from its encoding, in order. */
  lemma FixupsRoundTrip(kind: Kind, segs: seq<nat>, es: seq<Entry>)
    requires AllFit(segs, es)
    ensures Program(kind, OpsOfAll(kind, es))
    ensures Walk(kind, segs, Encode(kind, OpsOfAll(kind, es)) + [0], START) == Walked(FixupsOf(kind, segs, es), true)
  {
    hide RunOps, OpsOfAll, Walk, Encode;
    EntriesRun(kind, segs, es, START);
    WalkProgram(kind, segs, OpsOfAll(kind, es), START);
  }
}
