/** The opcodes byte by byte: what each form looks like in a stream, and the fixups it comes to. */
module DyldOpcodes {
  import opened Wrappers
  import opened DyldLeb
  import opened DyldWalk
  import opened DyldLaws

  /** The forms of the two encodings. */
  datatype Form =
    | End
    | Type(t: nat)
    | Place(seg: nat, off: nat)
    | Forward(n: nat)
    | ForwardWords(k: nat)
    | Run(k: nat)
    | LongRun(n: nat)
    | FixForward(n: nat)
    | SpacedRun(n: nat, skip: nat)
    | Library
    | LibraryNumber(n: nat)
    | Symbol(weakImport: bool, name: Name)
    | Addend(a: int)
    | Fix
    | FixForwardWords(k: nat)

  /** Does the byte open with this half, whatever the other half? */
  predicate Opcode(b: Byte, high: nat) { high <= b < high + 0x10 }

  predicate OpcodeWith(b: Byte, high: nat, imm: nat) { b == high + imm && imm < 0x10 }

  /** A number from `i` up to `j`. */
  predicate NumberAt(s: seq<Byte>, i: nat, n: nat, j: nat) {
    i <= j && i <= |s| && Unsigned(s[i..]) == Some((n, j - i))
  }

  /** The first `len` bytes of `s` are the form, as a rebase stream or a bind stream has it. */
  ghost predicate Opens(kind: Kind, s: seq<Byte>, form: Form, len: nat)
    requires s != []
  {
    var rebase := kind == Rebase;
    match form
    case End => Opcode(s[0], 0x00) && len == 1
    case Type(t) => OpcodeWith(s[0], if rebase then 0x10 else 0x50, t) && len == 1
    case Place(seg, off) => OpcodeWith(s[0], if rebase then 0x20 else 0x70, seg) && NumberAt(s, 1, off, len)
    case Forward(n) => Opcode(s[0], if rebase then 0x30 else 0x80) && NumberAt(s, 1, n, len)
    case ForwardWords(k) => rebase && OpcodeWith(s[0], 0x40, k) && len == 1
    case Run(k) => rebase && OpcodeWith(s[0], 0x50, k) && len == 1
    case LongRun(n) => rebase && Opcode(s[0], 0x60) && NumberAt(s, 1, n, len)
    case FixForward(n) => Opcode(s[0], if rebase then 0x70 else 0xA0) && NumberAt(s, 1, n, len)
    case SpacedRun(n, skip) =>
      && Opcode(s[0], if rebase then 0x80 else 0xC0)
      && exists mid: nat :: NumberAt(s, 1, n, mid) && NumberAt(s, mid, skip, len)
    case Library => !rebase && (Opcode(s[0], 0x10) || Opcode(s[0], 0x30)) && len == 1
    case LibraryNumber(n) => !rebase && Opcode(s[0], 0x20) && NumberAt(s, 1, n, len)
    case Symbol(weakImport, name) =>
      && !rebase && Opcode(s[0], 0x40) && (weakImport <==> s[0] % 2 == 1)
      && NoZero(name) && len == |name| + 2 <= |s| && s[1..len - 1] == name && s[len - 1] == 0
    case Addend(a) => !rebase && Opcode(s[0], 0x60) && Signed(s[1..]) == Some((a, len - 1))
    case Fix => !rebase && Opcode(s[0], 0x90) && len == 1
    case FixForwardWords(k) => !rebase && OpcodeWith(s[0], 0xB0, k) && len == 1
  }

  /** How many fixups, */
  function Made(form: Form): nat {
    match form
    case Run(k) => k
    case LongRun(n) => n
    case FixForward(_) => 1
    case SpacedRun(n, _) => n
    case Fix => 1
    case FixForwardWords(_) => 1
    case _ => 0
  }

  /** how far from one to the next, */
  function Stride(form: Form): nat {
    match form
    case FixForward(n) => 4 + n
    case SpacedRun(_, skip) => 4 + skip
    case FixForwardWords(k) => 4 + 4 * k
    case _ => 4
  }

  /** and what the stream's state is afterwards. */
  function After(c: Cursor, form: Form): Cursor {
    match form
    case End => Cursor(1, 0, 0, None, 0, false)
    case Type(t) => Cursor(t, c.seg, c.off, c.sym, c.addend, c.weakImport)
    case Place(seg, off) => Cursor(c.type_, seg, off, c.sym, c.addend, c.weakImport)
    case Forward(n) => Advanced(c, n)
    case ForwardWords(k) => Advanced(c, 4 * k)
    case Symbol(weakImport, name) => Cursor(c.type_, c.seg, c.off, Some(name), c.addend, weakImport)
    case Addend(a) => Cursor(c.type_, c.seg, c.off, c.sym, a, c.weakImport)
    case _ => Advanced(c, Made(form) * Stride(form))
  }

  function Advanced(c: Cursor, d: nat): Cursor {
    Cursor(c.type_, c.seg, (c.off + d) % 0x1_0000_0000, c.sym, c.addend, c.weakImport)
  }

  /** Fixups of the state in hand, evenly spaced from where it stands. */
  function Spread(segs: seq<nat>, c: Cursor, count: nat, stride: nat): seq<Fixup>
    requires c.seg < |segs|
  {
    seq(count, k requires 0 <= k < count =>
      Fixup((segs[c.seg] + c.off + k * stride) % 0x1_0000_0000, c.type_, c.sym, c.addend, c.weakImport))
  }

  // ---- every form is decoded, and nothing else is

  function OpOf(form: Form): Op {
    match form
    case End => Done
    case Type(t) => SetType(t)
    case Place(seg, off) => SetSegment(seg, off)
    case Forward(n) => Add(n)
    case ForwardWords(k) => Add(k * 4)
    case Run(k) => Times(k, 0)
    case LongRun(n) => Times(n, 0)
    case FixForward(n) => Times(1, n)
    case SpacedRun(n, skip) => Times(n, skip)
    case Library => Ordinal
    case LibraryNumber(_) => Ordinal
    case Symbol(weakImport, name) => SetSymbol(weakImport, name)
    case Addend(a) => SetAddend(a)
    case Fix => Times(1, 0)
    case FixForwardWords(k) => Times(1, k * 4)
  }

  lemma NameRead(s: seq<Byte>, name: Name)
    requires NoZero(name) && |name| < |s| && s[..|name|] == name && s[|name|] == 0
    ensures NameLen(s) == Some(|name|)
  {
    NameEnds(name, s[|name| + 1..]);
    assert s == name + [0] + s[|name| + 1..];
  }

  lemma SpacedIsDecoded(s: seq<Byte>, n: nat, skip: nat, mid: nat, len: nat)
    requires s != [] && NumberAt(s, 1, n, mid) && NumberAt(s, mid, skip, len)
    ensures WithTwo(s[1..]) == Some((Times(n, skip), len))
  {
    hide Unsigned;
    assert s[1..][mid - 1..] == s[mid..];
  }

  lemma RebaseIsDecoded(s: seq<Byte>, form: Form, len: nat)
    requires s != [] && Opens(Rebase, s, form, len)
    ensures Decode(Rebase, s) == Some((OpOf(form), len))
  {
    hide Unsigned, WithTwo;
    if form.SpacedRun? {
      var mid: nat :| NumberAt(s, 1, form.n, mid) && NumberAt(s, mid, form.skip, len);
      SpacedIsDecoded(s, form.n, form.skip, mid, len);
    }
  }

  lemma BindIsDecoded(kind: Kind, s: seq<Byte>, form: Form, len: nat)
    requires kind != Rebase && s != [] && Opens(kind, s, form, len)
    ensures Decode(kind, s) == Some((OpOf(form), len))
  {
    hide Unsigned, Signed, NameLen, WithTwo;
    match form
    case SpacedRun(n, skip) =>
      var mid: nat :| NumberAt(s, 1, n, mid) && NumberAt(s, mid, skip, len);
      SpacedIsDecoded(s, n, skip, mid, len);
    case Symbol(_, name) =>
      assert s[1..][..|name|] == name;
      NameRead(s[1..], name);
    case _ =>
  }

  lemma FormIsDecoded(kind: Kind, s: seq<Byte>, form: Form, len: nat)
    requires s != [] && Opens(kind, s, form, len)
    ensures Decode(kind, s) == Some((OpOf(form), len))
  {
    hide Opens, Decode;
    if kind == Rebase { RebaseIsDecoded(s, form, len); } else { BindIsDecoded(kind, s, form, len); }
  }

  lemma {:induction false} NameHasNoZero(s: seq<Byte>)
    requires NameLen(s).Some?
    ensures NoZero(s[..NameLen(s).value])
  {
    if s[0] != 0 {
      NameHasNoZero(s[1..]);
      assert s[..NameLen(s).value] == [s[0]] + s[1..][..NameLen(s[1..]).value];
    }
  }

  lemma SpacedFound(s: seq<Byte>) returns (n: nat, skip: nat, mid: nat)
    requires s != [] && WithTwo(s[1..]).Some?
    ensures NumberAt(s, 1, n, mid) && NumberAt(s, mid, skip, WithTwo(s[1..]).value.1)
  {
    hide Unsigned;
    var u := Unsigned(s[1..]).value;
    n, mid := u.0, 1 + u.1;
    assert s[1..][u.1..] == s[mid..];
    skip := Unsigned(s[mid..]).value.0;
  }

  lemma RebaseFormFound(s: seq<Byte>) returns (form: Form)
    requires s != [] && Decode(Rebase, s).Some?
    ensures Opens(Rebase, s, form, Decode(Rebase, s).value.1)
  {
    hide Unsigned, WithTwo;
    var imm := s[0] % 16;
    match s[0] / 16
    case 0 => form := End;
    case 1 => form := Type(imm);
    case 2 => form := Place(imm, Unsigned(s[1..]).value.0);
    case 3 => form := Forward(Unsigned(s[1..]).value.0);
    case 4 => form := ForwardWords(imm);
    case 5 => form := Run(imm);
    case 6 => form := LongRun(Unsigned(s[1..]).value.0);
    case 7 => form := FixForward(Unsigned(s[1..]).value.0);
    case _ =>
      var n, skip, mid := SpacedFound(s);
      form := SpacedRun(n, skip);
  }

  lemma BindFormFound(kind: Kind, s: seq<Byte>) returns (form: Form)
    requires kind != Rebase && s != [] && Decode(kind, s).Some?
    ensures Opens(kind, s, form, Decode(kind, s).value.1)
  {
    hide Unsigned, Signed, NameLen, WithTwo;
    var imm := s[0] % 16;
    match s[0] / 16
    case 0 => form := End;
    case 1 => form := Library;
    case 2 => form := LibraryNumber(Unsigned(s[1..]).value.0);
    case 3 => form := Library;
    case 4 =>
      NameHasNoZero(s[1..]);
      form := Symbol(imm % 2 == 1, s[1..][..NameLen(s[1..]).value]);
    case 5 => form := Type(imm);
    case 6 => form := Addend(Signed(s[1..]).value.0);
    case 7 => form := Place(imm, Unsigned(s[1..]).value.0);
    case 8 => form := Forward(Unsigned(s[1..]).value.0);
    case 9 => form := Fix;
    case 10 => form := FixForward(Unsigned(s[1..]).value.0);
    case 11 => form := FixForwardWords(imm);
    case _ =>
      var n, skip, mid := SpacedFound(s);
      form := SpacedRun(n, skip);
  }

  /** The stream goes wrong exactly where no form opens it. */
  lemma DecodedIffForm(kind: Kind, s: seq<Byte>)
    requires s != []
    ensures Decode(kind, s).Some? <==> exists form, len :: Opens(kind, s, form, len)
  {
    hide Decode, Opens;
    if Decode(kind, s).Some? {
      if kind == Rebase {
        var form := RebaseFormFound(s);
      } else {
        var form := BindFormFound(kind, s);
      }
    }
    if form, len :| Opens(kind, s, form, len) {
      FormIsDecoded(kind, s, form, len);
    }
  }

  // ---- and what it comes to

  lemma FormRuns(segs: seq<nat>, c: Cursor, form: Form)
    requires c.off < WORD
    ensures var run := RunOp(segs, c, OpOf(form));
      if Made(form) > 0 && c.seg >= |segs| then run.None?
      else if Made(form) == 0 then run == Some((After(c, form), []))
      else run == Some((After(c, form), Spread(segs, c, Made(form), Stride(form))))
  {
    hide Repeated, Spread;
    StaysPut(c);
    match form
    case Run(k) => TimesRun(segs, c, k, 0);
    case LongRun(n) => TimesRun(segs, c, n, 0);
    case FixForward(n) => TimesRun(segs, c, 1, n);
    case SpacedRun(n, skip) => TimesRun(segs, c, n, skip);
    case Fix => TimesRun(segs, c, 1, 0);
    case FixForwardWords(k) => TimesRun(segs, c, 1, k * 4);
    case _ =>
  }

  lemma StaysPut(c: Cursor)
    requires c.off < WORD
    ensures Advanced(c, 0) == c
  {
  }

  lemma NoTimes(segs: seq<nat>, c: Cursor, skip: nat)
    ensures Repeated(segs, c, 0, skip) == Some((c, []))
  {
  }

  lemma TimesRun(segs: seq<nat>, c: Cursor, count: nat, skip: nat)
    requires c.off < WORD
    ensures var r, stride := Repeated(segs, c, count, skip), 4 + skip;
      if count == 0 then r == Some((c, [])) && Advanced(c, count * stride) == c
      else if c.seg >= |segs| then r.None?
      else r == Some((Advanced(c, count * stride), Spread(segs, c, count, stride)))
  {
    hide Repeated;
    if count == 0 {
      NoTimes(segs, c, skip);
      StaysPut(c);
    } else {
      CountedAddresses(segs, c, count, skip);
      if c.seg < |segs| {
        assert Repeated(segs, c, count, skip).value.1 == Spread(segs, c, count, 4 + skip);
      }
    }
  }

  /** A walk over bytes a form opens: its fixups, and then the rest from the state after it. */
  lemma OneForm(kind: Kind, segs: seq<nat>, s: seq<Byte>, form: Form, len: nat, c: Cursor)
    requires s != [] && c.off < WORD && Opens(kind, s, form, len)
    ensures len <= |s|
    ensures var w := Walk(kind, segs, s, c);
      if form.End? && kind != Lazy then w == Walked([], true)
      else if Made(form) == 0 then w == Walk(kind, segs, s[len..], After(c, form))
      else if c.seg >= |segs| then w == Walked([], false)
      else w == Joined(Spread(segs, c, Made(form), Stride(form)), Walk(kind, segs, s[len..], After(c, form)))
  {
    hide Decode, RunOp, Opens, After, Made, Stride;
    FormIsDecoded(kind, s, form, len);
    FormRuns(segs, c, form);
    JoinNothing(Walk(kind, segs, s[len..], After(c, form)));
  }

  /** Where no form opens the bytes the walk stops; only the one that fixes before it reads on has
      made its fixup, if the segment exists. */
  lemma NoForm(kind: Kind, segs: seq<nat>, s: seq<Byte>, c: Cursor)
    requires s != [] && c.off < WORD && forall form, len :: !Opens(kind, s, form, len)
    ensures Walk(kind, segs, s, c) ==
      if Opcode(s[0], if kind == Rebase then 0x70 else 0xA0) && c.seg < |segs| then Walked(Spread(segs, c, 1, 4), false)
      else Walked([], false)
  {
    hide Decode, Opens;
    DecodedIffForm(kind, s);
  }

  /** A stream's walk begins as after an `End`. */
  lemma Begins(c: Cursor)
    ensures START == After(c, End)
  {
  }
}
