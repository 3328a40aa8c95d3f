/** The compressed fixup streams: opcodes, what they do, and the walk over the bytes. */
module DyldWalk {
  import opened Wrappers
  import opened DyldLeb

  datatype Kind = Rebase | Normal | Weak | Lazy

  const TYPE_POINTER: nat := 1

  type Name = seq<Byte>

  /** One fixup at an unslid address. */
  datatype Fixup = Fixup(addr: nat, type_: nat, sym: Option<Name>, addend: int, weakImport: bool)

  datatype Cursor = Cursor(type_: nat, seg: nat, off: nat, sym: Option<Name>, addend: int, weakImport: bool)

  const START := Cursor(TYPE_POINTER, 0, 0, None, 0, false)

  /** An opcode with its operands.  `Times` stands for every opcode that makes fixups: `count`
      of them, each moving the offset on by a slot and `skip` more. */
  datatype Op =
    | Done | SetType(imm: nat) | SetSegment(seg: nat, off: nat) | Add(n: nat) | Times(count: nat, skip: nat)
    | SetSymbol(weakImport: bool, name: Name) | SetAddend(a: int) | Ordinal

  // ---- decoding

  /** The name up to its zero byte. */
  function NameLen(s: seq<Byte>): (r: Option<nat>)
    ensures r.Some? ==> r.value < |s| && s[r.value] == 0
  {
    if s == [] then None
    else if s[0] == 0 then Some(0)
    else
      var n := NameLen(s[1..]);
      if n.None? then None else Some(1 + n.value)
  }

  /** An opcode whose one operand is a number. */
  function WithNumber(s: seq<Byte>, op: nat -> Op): (r: Option<(Op, nat)>)
    ensures r.Some? ==> 0 < r.value.1 <= |s| + 1
  {
    var u := Unsigned(s);
    if u.None? then None else Some((op(u.value.0), 1 + u.value.1))
  }

  function WithTwo(s: seq<Byte>): (r: Option<(Op, nat)>)
    ensures r.Some? ==> 0 < r.value.1 <= |s| + 1
  {
    var u := Unsigned(s);
    if u.None? then None
    else
      var v := Unsigned(s[u.value.1..]);
      if v.None? then None else Some((Times(u.value.0, v.value.0), 1 + u.value.1 + v.value.1))
  }

  function DecodeRebase(op: nat, imm: nat, s: seq<Byte>): (r: Option<(Op, nat)>)
    ensures r.Some? ==> 0 < r.value.1 <= |s| + 1
  {
    match op
    case 0 => Some((Done, 1))
    case 1 => Some((SetType(imm), 1))
    case 2 => WithNumber(s, (n: nat) => SetSegment(imm, n))
    case 3 => WithNumber(s, (n: nat) => Add(n))
    case 4 => Some((Add(imm * 4), 1))
    case 5 => Some((Times(imm, 0), 1))
    case 6 => WithNumber(s, (n: nat) => Times(n, 0))
    case 7 => WithNumber(s, (n: nat) => Times(1, n))
    case 8 => WithTwo(s)
    case _ => None
  }

  function DecodeBind(op: nat, imm: nat, s: seq<Byte>): (r: Option<(Op, nat)>)
    ensures r.Some? ==> 0 < r.value.1 <= |s| + 1
  {
    match op
    case 0 => Some((Done, 1))
    case 1 => Some((Ordinal, 1))
    case 2 => WithNumber(s, (_: nat) => Ordinal)
    case 3 => Some((Ordinal, 1))
    case 4 =>
      var n := NameLen(s);
      if n.None? then None else Some((SetSymbol(imm % 2 == 1, s[..n.value]), 2 + n.value))
    case 5 => Some((SetType(imm), 1))
    case 6 =>
      var a := Signed(s);
      if a.None? then None else Some((SetAddend(a.value.0), 1 + a.value.1))
    case 7 => WithNumber(s, (n: nat) => SetSegment(imm, n))
    case 8 => WithNumber(s, (n: nat) => Add(n))
    case 9 => Some((Times(1, 0), 1))
    case 10 => WithNumber(s, (n: nat) => Times(1, n))
    case 11 => Some((Times(1, imm * 4), 1))
    case 12 => WithTwo(s)
    case _ => None
  }

  /** The opcode at the start and its length; nothing for one that is unknown or cut short. */
  function Decode(kind: Kind, s: seq<Byte>): (r: Option<(Op, nat)>)
    requires s != []
    ensures r.Some? ==> 0 < r.value.1 <= |s|
  {
    if kind == Rebase then DecodeRebase(s[0] / 16, s[0] % 16, s[1..]) else DecodeBind(s[0] / 16, s[0] % 16, s[1..])
  }

  // ---- meaning

  function Moved(c: Cursor, n: nat): Cursor { c.(off := (c.off + n) % WORD) }

  /** The fixup at the cursor; nothing when the segment does not exist. */
  function At(segs: seq<nat>, c: Cursor): Option<Fixup> {
    if c.seg >= |segs| then None
    else Some(Fixup((segs[c.seg] + c.off) % WORD, c.type_, c.sym, c.addend, c.weakImport))
  }

  /** Fixups and the cursor after them, one at a time. */
  function Repeated(segs: seq<nat>, c: Cursor, count: nat, skip: nat): Option<(Cursor, seq<Fixup>)> {
    if count == 0 then Some((c, []))
    else
      var front := Repeated(segs, c, count - 1, skip);
      if front.None? then None
      else
        var f := At(segs, front.value.0);
        if f.None? then None else Some((Moved(front.value.0, 4 + skip), front.value.1 + [f.value]))
  }

  function RunOp(segs: seq<nat>, c: Cursor, op: Op): Option<(Cursor, seq<Fixup>)> {
    match op
    case Done => Some((START, []))
    case SetType(imm) => Some((c.(type_ := imm), []))
    case SetSegment(seg, off) => Some((c.(seg := seg, off := off), []))
    case Add(n) => Some((Moved(c, n), []))
    case Times(count, skip) => Repeated(segs, c, count, skip)
    case SetSymbol(w, name) => Some((c.(sym := Some(name), weakImport := w), []))
    case SetAddend(a) => Some((c.(addend := a), []))
    case Ordinal => Some((c, []))
  }

  /** What a walk hands over, and whether it came to the stream's end or stopped on an error. */
  datatype Walked = Walked(fixups: seq<Fixup>, ended: bool)

  /** The opcodes that make their fixup before their operand is read: it is handed over even
      when the operand is cut short. */
  predicate FixesFirst(kind: Kind, b: Byte) { b / 16 == if kind == Rebase then 7 else 10 }

  function Early(kind: Kind, segs: seq<nat>, b: Byte, c: Cursor): seq<Fixup> {
    if FixesFirst(kind, b) && At(segs, c).Some? then [At(segs, c).value] else []
  }

  /** A stream's fixups in order, up to its end or the first error.  `Done` ends a stream, but
      separates the programs of a lazy one. */
  function Walk(kind: Kind, segs: seq<nat>, s: seq<Byte>, c: Cursor): Walked
    decreases |s|
  {
    if s == [] then Walked([], true)
    else
      var d := Decode(kind, s);
      if d.None? then Walked(Early(kind, segs, s[0], c), false)
      else
        var (op, n) := d.value;
        if op.Done? && kind != Lazy then Walked([], true)
        else
          var run := RunOp(segs, c, op);
          if run.None? then Walked([], false) else Joined(run.value.1, Walk(kind, segs, s[n..], run.value.0))
  }

  function Joined(a: seq<Fixup>, rest: Walked): Walked { Walked(a + rest.fixups, rest.ended) }

  // ---- the walk as it runs

  method ReadName(s: seq<Byte>, pos: nat) returns (r: Option<nat>)
    requires pos <= |s|
    ensures r == NameLen(s[pos..])
  {
    var i := pos;
    while i < |s| && s[i] != 0
      invariant pos <= i <= |s|
      invariant NameLen(s[pos..]) == if NameLen(s[i..]).None? then None else Some(i - pos + NameLen(s[i..]).value)
    {
      assert s[i..][1..] == s[i + 1..];
      i := i + 1;
    }
    r := if i < |s| then Some(i - pos) else None;
  }

  method Emit(segs: seq<nat>, c: Cursor, count: nat, skip: nat) returns (r: Option<(Cursor, seq<Fixup>)>)
    ensures r == Repeated(segs, c, count, skip)
  {
    var cursor, fixups: seq<Fixup> := c, [];
    var i := 0;
    while i < count
      invariant 0 <= i <= count && Repeated(segs, c, i, skip) == Some((cursor, fixups))
    {
      if cursor.seg >= |segs| {
        RepeatedFails(segs, c, i + 1, count, skip);
        return None;
      }
      fixups := fixups + [At(segs, cursor).value];
      cursor := Moved(cursor, 4 + skip);
      i := i + 1;
    }
    r := Some((cursor, fixups));
  }

  lemma {:induction false} RepeatedFails(segs: seq<nat>, c: Cursor, i: nat, count: nat, skip: nat)
    requires i <= count && Repeated(segs, c, i, skip).None?
    ensures Repeated(segs, c, count, skip).None?
  {
    if i < count {
      RepeatedFails(segs, c, i, count - 1, skip);
    }
  }

  method ReadNumber(s: seq<Byte>, pos: nat, op: nat -> Op) returns (r: Option<(Op, nat)>)
    requires pos <= |s|
    ensures r == WithNumber(s[pos..], op)
  {
    var u := ReadUnsigned(s, pos);
    r := if u.None? then None else Some((op(u.value.0), 1 + u.value.1));
  }

  method ReadTwo(s: seq<Byte>, pos: nat) returns (r: Option<(Op, nat)>)
    requires pos <= |s|
    ensures r == WithTwo(s[pos..])
  {
    hide Unsigned;
    var u := ReadUnsigned(s, pos);
    if u.None? {
      return None;
    }
    var v := ReadUnsigned(s, pos + u.value.1);
    assert s[pos..][u.value.1..] == s[pos + u.value.1..];
    r := if v.None? then None else Some((Times(u.value.0, v.value.0), 1 + u.value.1 + v.value.1));
  }

  method ReadRebase(op: nat, imm: nat, s: seq<Byte>, pos: nat) returns (r: Option<(Op, nat)>)
    requires pos <= |s|
    ensures r == DecodeRebase(op, imm, s[pos..])
  {
    hide WithNumber, WithTwo;
    match op
    case 0 => r := Some((Done, 1));
    case 1 => r := Some((SetType(imm), 1));
    case 2 => r := ReadNumber(s, pos, (n: nat) => SetSegment(imm, n));
    case 3 => r := ReadNumber(s, pos, (n: nat) => Add(n));
    case 4 => r := Some((Add(imm * 4), 1));
    case 5 => r := Some((Times(imm, 0), 1));
    case 6 => r := ReadNumber(s, pos, (n: nat) => Times(n, 0));
    case 7 => r := ReadNumber(s, pos, (n: nat) => Times(1, n));
    case 8 => r := ReadTwo(s, pos);
    case _ => r := None;
  }

  method ReadBind(op: nat, imm: nat, s: seq<Byte>, pos: nat) returns (r: Option<(Op, nat)>)
    requires pos <= |s|
    ensures r == DecodeBind(op, imm, s[pos..])
  {
    hide WithNumber, WithTwo, NameLen, Signed;
    match op
    case 0 => r := Some((Done, 1));
    case 1 => r := Some((Ordinal, 1));
    case 2 => r := ReadNumber(s, pos, (_: nat) => Ordinal);
    case 3 => r := Some((Ordinal, 1));
    case 4 =>
      var n := ReadName(s, pos);
      r := if n.None? then None else Some((SetSymbol(imm % 2 == 1, s[pos..][..n.value]), 2 + n.value));
    case 5 => r := Some((SetType(imm), 1));
    case 6 =>
      var a := ReadSigned(s, pos);
      r := if a.None? then None else Some((SetAddend(a.value.0), 1 + a.value.1));
    case 7 => r := ReadNumber(s, pos, (n: nat) => SetSegment(imm, n));
    case 8 => r := ReadNumber(s, pos, (n: nat) => Add(n));
    case 9 => r := Some((Times(1, 0), 1));
    case 10 => r := ReadNumber(s, pos, (n: nat) => Times(1, n));
    case 11 => r := Some((Times(1, imm * 4), 1));
    case 12 => r := ReadTwo(s, pos);
    case _ => r := None;
  }

  method ReadOp(kind: Kind, s: seq<Byte>, pos: nat) returns (r: Option<(Op, nat)>)
    requires pos < |s|
    ensures r == Decode(kind, s[pos..])
  {
    hide DecodeRebase, DecodeBind;
    assert s[pos..][1..] == s[pos + 1..];
    if kind == Rebase {
      r := ReadRebase(s[pos] / 16, s[pos] % 16, s, pos + 1);
    } else {
      r := ReadBind(s[pos] / 16, s[pos] % 16, s, pos + 1);
    }
  }

  /** One opcode: the cursor after it and the fixups it makes, or nothing where the segment is missing. */
  method RunOne(segs: seq<nat>, c: Cursor, op: Op) returns (r: Option<(Cursor, seq<Fixup>)>)
    ensures r == RunOp(segs, c, op)
  {
    hide Repeated, At;
    match op
    case Done => r := Some((START, []));
    case SetType(imm) => r := Some((c.(type_ := imm), []));
    case SetSegment(seg, off) => r := Some((c.(seg := seg, off := off), []));
    case Add(n) => r := Some((Moved(c, n), []));
    case Times(count, skip) => r := Emit(segs, c, count, skip);
    case SetSymbol(w, name) => r := Some((c.(sym := Some(name), weakImport := w), []));
    case SetAddend(a) => r := Some((c.(addend := a), []));
    case Ordinal => r := Some((c, []));
  }

  /** The walk: one opcode after another, fixups in the order the consumer is handed them. */
  method WalkStream(kind: Kind, segs: seq<nat>, s: seq<Byte>) returns (r: Walked)
    ensures r == Walk(kind, segs, s, START)
  {
    hide Decode, RunOp, At;
    var c, fixups, pos := START, [], 0;
    assert s[0..] == s;
    JoinNothing(Walk(kind, segs, s, START));
    while pos < |s|
      invariant 0 <= pos <= |s|
      invariant Joined(fixups, Walk(kind, segs, s[pos..], c)) == Walk(kind, segs, s, START)
    {
      var d := ReadOp(kind, s, pos);
      if d.None? {
        AtSegment(segs, c);
        var early := if FixesFirst(kind, s[pos]) && c.seg < |segs| then [At(segs, c).value] else [];
        return Walked(fixups + early, false);
      }
      var (op, n) := d.value;
      if op.Done? && kind != Lazy {
        JoinEnd(fixups, true);
        return Walked(fixups, true);
      }
      var run := RunOne(segs, c, op);
      if run.None? {
        JoinEnd(fixups, false);
        return Walked(fixups, false);
      }
      assert s[pos..][n..] == s[pos + n..];
      pos := pos + n;
      JoinTwo(fixups, run.value.1, Walk(kind, segs, s[pos..], run.value.0));
      c, fixups := run.value.0, fixups + run.value.1;
    }
    JoinEnd(fixups, true);
    r := Walked(fixups, true);
  }

  lemma AtSegment(segs: seq<nat>, c: Cursor)
    ensures At(segs, c).Some? <==> c.seg < |segs|
  {
  }

  lemma JoinNothing(o: Walked)
    ensures Joined([], o) == o
  {
    assert [] + o.fixups == o.fixups;
  }

  lemma JoinEnd(a: seq<Fixup>, ended: bool)
    ensures Joined(a, Walked([], ended)) == Walked(a, ended)
  {
    assert a + [] == a;
  }

  lemma JoinTwo(a: seq<Fixup>, b: seq<Fixup>, o: Walked)
    ensures Joined(a, Joined(b, o)) == Joined(a + b, o)
    ensures a + [] == a
  {
    assert a + (b + o.fixups) == (a + b) + o.fixups;
  }
}
