/** The table behind `regcomp`, `regexec` and `regfree`: compiled programs kept by the caller's address. */
module RegexTable {
  import opened Wrappers
  import opened RegexProgram
  import opened RegexMeaning
  import opened RegexGrammar
  import opened RegexMatcher
  import opened RegexCompiler

  const RE_MAX_PROGS: nat := 256
  const NULL_PREG: nat := 0

  /** A slot is spare once its address is cleared. */
  datatype Slot = Slot(preg: nat, prog: Option<Prog>, abbreviation: bool)

  datatype Flags = Flags(extended: bool, icase: bool, newline: bool)

  const ABBREVIATION_MARKS: seq<string> := ["(,[[:digit:]]{3})*", "(K|M|G|T|P)B", "JAN", "ISH", "&"]

  predicate ContainsAt(text: string, mark: string, i: nat) {
    i + |mark| <= |text| && text[i..i + |mark|] == mark
  }

  /** The pattern holds one of the marks of an abbreviation rule. */
  predicate IsAbbreviation(text: string) {
    exists m, i :: 0 <= m < |ABBREVIATION_MARKS| && 0 <= i <= |text| && ContainsAt(text, ABBREVIATION_MARKS[m], i)
  }

  /** What stands around a mark does not matter. */
  predicate Has(text: string, mark: string, before: string, after: string) { text == before + mark + after }

  lemma MarkStands(text: string, m: nat, before: string, after: string)
    requires m < |ABBREVIATION_MARKS| && Has(text, ABBREVIATION_MARKS[m], before, after)
    ensures IsAbbreviation(text)
  {
    assert ContainsAt(text, ABBREVIATION_MARKS[m], |before|);
  }

  lemma AbbreviationIff(text: string)
    ensures IsAbbreviation(text) <==>
            exists mark, before, after :: Has(text, mark, before, after) &&
              mark in {"(,[[:digit:]]{3})*", "(K|M|G|T|P)B", "JAN", "ISH", "&"}
  {
    var marks := {"(,[[:digit:]]{3})*", "(K|M|G|T|P)B", "JAN", "ISH", "&"};
    if IsAbbreviation(text) {
      var m, i :| 0 <= m < |ABBREVIATION_MARKS| && 0 <= i <= |text| && ContainsAt(text, ABBREVIATION_MARKS[m], i);
      var mark := ABBREVIATION_MARKS[m];
      MarkListed(m);
      assert Has(text, mark, text[..i], text[i + |mark|..]);
    }
    if mark, before, after :| Has(text, mark, before, after) && mark in marks {
      var m := MarkFound(mark);
      MarkStands(text, m, before, after);
    }
  }

  lemma MarkListed(m: nat)
    requires m < |ABBREVIATION_MARKS|
    ensures ABBREVIATION_MARKS[m] in {"(,[[:digit:]]{3})*", "(K|M|G|T|P)B", "JAN", "ISH", "&"}
  {
  }

  lemma MarkFound(mark: string) returns (m: nat)
    requires mark in {"(,[[:digit:]]{3})*", "(K|M|G|T|P)B", "JAN", "ISH", "&"}
    ensures m < |ABBREVIATION_MARKS| && ABBREVIATION_MARKS[m] == mark
  {
    m := if mark == "(,[[:digit:]]{3})*" then 0 else if mark == "(K|M|G|T|P)B" then 1 else if mark == "JAN" then 2
         else if mark == "ISH" then 3 else 4;
  }

  const BOUNDED: nat := 512

  /** Bounds the caller gives are used if they are in order and fit the buffer they are copied to. */
  predicate Bounded(bounds: Option<(int, int)>) {
    bounds.Some? && 0 <= bounds.value.0 <= bounds.value.1 && bounds.value.1 - bounds.value.0 < BOUNDED
  }

  /** The bytes from the subject's address on that are there to read: up to the end of the bounds,
      or else up to a NUL. */
  predicate Readable(memory: string, bounds: Option<(int, int)>) {
    && (forall i :: 0 <= i < |memory| ==> memory[i] as int < 256)
    && if Bounded(bounds) then bounds.value.1 <= |memory| else NUL in memory
  }

  function UpToNul(s: string): (r: string)
    ensures r <= s && NUL !in r && (r == s || s[|r|] == NUL)
  {
    if s == "" || s[0] == NUL then "" else [s[0]] + UpToNul(s[1..])
  }

  /** The subject: inside the bounds, whatever follows them in memory; at most up to a NUL. */
  function SubjectOf(memory: string, bounds: Option<(int, int)>): (r: CString)
    requires Readable(memory, bounds)
    ensures var stretch := if Bounded(bounds) then memory[bounds.value.0..bounds.value.1] else memory;
      r <= stretch && (r == stretch || stretch[|r|] == NUL)
  {
    var s := UpToNul(if Bounded(bounds) then memory[bounds.value.0..bounds.value.1] else memory);
    assert forall i :: 0 <= i < |s| ==> 0 < s[i] as int < 256 by {
      forall i | 0 <= i < |s| ensures 0 < s[i] as int < 256 { assert s[i] in s; }
    }
    s
  }

  /** The slot that holds an address, if any. */
  function IndexOf(slots: seq<Slot>, preg: nat, from: nat): (r: Option<nat>)
    requires from <= |slots|
    ensures r.Some? ==> from <= r.value < |slots| && slots[r.value].preg == preg
    ensures r.None? ==> forall k :: from <= k < |slots| ==> slots[k].preg != preg
    decreases |slots| - from
  {
    if from == |slots| then None else if slots[from].preg == preg then Some(from) else IndexOf(slots, preg, from + 1)
  }

  ghost predicate Unique(slots: seq<Slot>) {
    forall i, j :: 0 <= i < j < |slots| && slots[i].preg != NULL_PREG ==> slots[i].preg != slots[j].preg
  }

  ghost predicate SlotsOk(slots: seq<Slot>) {
    && |slots| <= RE_MAX_PROGS && Unique(slots)
    && forall k :: 0 <= k < |slots| && slots[k].prog.Some? ==> ProgOk(slots[k].prog.value)
  }

  /** What the table knows of an address. */
  ghost function Known(slots: seq<Slot>, preg: nat): Option<Slot> {
    if preg == NULL_PREG then None
    else
      var i := IndexOf(slots, preg, 0);
      if i.None? then None else Some(slots[i.value])
  }

  lemma KnownIs(slots: seq<Slot>, preg: nat, i: nat)
    requires Unique(slots) && preg != NULL_PREG && i < |slots| && slots[i].preg == preg
    ensures Known(slots, preg) == Some(slots[i])
  {
  }

  lemma KnownNone(slots: seq<Slot>, preg: nat)
    requires preg != NULL_PREG && forall k :: 0 <= k < |slots| ==> slots[k].preg != preg
    ensures Known(slots, preg) == None
  {
  }

  /** Where `re_slot_for` puts an address: its own slot, a spare one, a new one, or, in a full
      table, the first one's place at the end. */
  function SlotFor(slots: seq<Slot>, preg: nat): (r: (seq<Slot>, nat))
    requires |slots| <= RE_MAX_PROGS
    ensures r.1 < |r.0| <= RE_MAX_PROGS && r.0[r.1].preg == preg
  {
    var own := if preg == NULL_PREG then None else IndexOf(slots, preg, 0);
    var spare := IndexOf(slots, NULL_PREG, 0);
    if own.Some? then (slots[own.value := slots[own.value].(prog := None)], own.value)
    else if spare.Some? then (slots[spare.value := slots[spare.value].(preg := preg)], spare.value)
    else if |slots| < RE_MAX_PROGS then (slots + [Slot(preg, None, false)], |slots|)
    else (slots[1..] + [Slot(preg, None, false)], |slots| - 1)
  }

  /** The address that loses its slot when a new one needs room. */
  ghost predicate Evicts(slots: seq<Slot>, preg: nat, q: nat) {
    && |slots| == RE_MAX_PROGS && slots[0].preg == q
    && forall k :: 0 <= k < |slots| ==> slots[k].preg != preg && slots[k].preg != NULL_PREG
  }

  function Filled(slots: seq<Slot>, preg: nat, prog: Option<Prog>, abbreviation: bool): (r: seq<Slot>)
    requires |slots| <= RE_MAX_PROGS
  {
    var (placed, i) := SlotFor(slots, preg);
    placed[i := Slot(preg, prog, abbreviation)]
  }

  lemma FilledIsOk(slots: seq<Slot>, preg: nat, prog: Option<Prog>, abbreviation: bool)
    requires SlotsOk(slots) && (prog.Some? ==> ProgOk(prog.value))
    ensures SlotsOk(Filled(slots, preg, prog, abbreviation))
    ensures preg != NULL_PREG ==> Known(Filled(slots, preg, prog, abbreviation), preg) == Some(Slot(preg, prog, abbreviation))
  {
    hide ProgOk, Known, IsAbbreviation;
    var filled := Filled(slots, preg, prog, abbreviation);
    var i := SlotFor(slots, preg).1;
    if preg != NULL_PREG {
      KnownIs(filled, preg, i);
    }
  }

  /** Filling one address leaves every other as it was, but for the one a full table drops. */
  lemma FilledKeeps(slots: seq<Slot>, preg: nat, prog: Option<Prog>, abbreviation: bool, q: nat)
    requires SlotsOk(slots) && (prog.Some? ==> ProgOk(prog.value)) && q != preg && q != NULL_PREG
    ensures var known := Known(Filled(slots, preg, prog, abbreviation), q);
      known == if Evicts(slots, preg, q) then None else Known(slots, q)
  {
    hide ProgOk, Known, IsAbbreviation;
    FilledIsOk(slots, preg, prog, abbreviation);
    var filled := Filled(slots, preg, prog, abbreviation);
    var at := IndexOf(slots, q, 0);
    if at.None? {
      KnownNone(slots, q);
      KnownNone(filled, q);
    } else {
      KnownIs(slots, q, at.value);
      if |filled| == |slots| && filled[at.value].preg == q {
        KnownIs(filled, q, at.value);
      } else if |filled| > |slots| {
        KnownIs(filled, q, at.value);
      } else if at.value > 0 {
        KnownIs(filled, q, at.value - 1);
      } else {
        KnownNone(filled, q);
      }
    }
  }

  class Table {
    var slots: seq<Slot>

    ghost predicate Valid()
      reads this
    {
      SlotsOk(slots)
    }

    constructor ()
      ensures Valid() && forall preg :: Known(slots, preg) == None
    {
      slots := [];
    }

    method Find(preg: nat) returns (r: Option<nat>)
      requires Valid()
      ensures r == if preg == NULL_PREG then None else IndexOf(slots, preg, 0)
    {
      if preg == NULL_PREG {
        return None;
      }
      var i := 0;
      while i < |slots|
        invariant 0 <= i <= |slots| && IndexOf(slots, preg, 0) == IndexOf(slots, preg, i)
      {
        if slots[i].preg == preg {
          return Some(i);
        }
        i := i + 1;
      }
      r := None;
    }

    /** `re_slot_for`. */
    method PlaceFor(preg: nat) returns (i: nat)
      requires Valid()
      modifies this
      ensures (slots, i) == SlotFor(old(slots), preg)
    {
      var own := Find(preg);
      if own.Some? {
        i := own.value;
        slots := slots[i := slots[i].(prog := None)];
        return;
      }
      i := 0;
      while i < |slots|
        invariant 0 <= i <= |slots| && IndexOf(slots, NULL_PREG, 0) == IndexOf(slots, NULL_PREG, i)
        invariant slots == old(slots)
      {
        if slots[i].preg == NULL_PREG {
          slots := slots[i := slots[i].(preg := preg)];
          return;
        }
        i := i + 1;
      }
      if |slots| < RE_MAX_PROGS {
        slots := slots + [Slot(preg, None, false)];
      } else {
        slots := slots[1..] + [Slot(preg, None, false)];
      }
      i := |slots| - 1;
    }

    /** Compile a pattern and keep the program under `preg`, refused ones as refused. */
    method RegComp(preg: nat, pattern: CString, flags: Flags) returns (prog: Option<Prog>)
      requires Valid()
      modifies this
      ensures Valid()
      ensures prog.Some? <==> flags.extended && ParsePattern(Source(pattern, flags.icase, flags.newline)).Some?
      ensures prog.Some? ==> ProgOk(prog.value) && prog.value.icase == flags.icase && prog.value.newline == flags.newline
                             && Some(TreeOf(prog.value)) == ParsePattern(Source(pattern, flags.icase, flags.newline))
      ensures preg != NULL_PREG ==> Known(slots, preg) == Some(Slot(preg, prog, IsAbbreviation(pattern)))
      ensures forall q :: q != preg && q != NULL_PREG ==>
        Known(slots, q) == if Evicts(old(slots), preg, q) then None else Known(old(slots), q)
    {
      hide ProgOk, Known, Evicts, SlotFor, IsAbbreviation;
      prog := Compile(pattern, flags.extended, flags.icase, flags.newline);
      ghost var was := slots;
      var i := PlaceFor(preg);
      var abbreviation := IsAbbreviation(pattern);
      slots := slots[i := Slot(preg, prog, abbreviation)];
      assert slots == Filled(was, preg, prog, abbreviation);
      FilledIsOk(was, preg, prog, abbreviation);
      forall q | q != preg && q != NULL_PREG
        ensures Known(slots, q) == if Evicts(was, preg, q) then None else Known(was, q)
      {
        FilledKeeps(was, preg, prog, abbreviation, q);
      }
    }

    /** Does the pattern kept under `preg` match somewhere in the subject?  A rule that expands an
        abbreviation never matches when abbreviations are not to be expanded. */
    method RegExec(preg: nat, memory: Option<string>, bounds: Option<(int, int)>, noAbbreviations: bool)
      returns (matched: bool, spent: bool)
      requires Valid() && (memory.Some? ==> Readable(memory.value, bounds))
      ensures matched ==> Speaks(Known(slots, preg), noAbbreviations) && memory.Some?
      ensures Speaks(Known(slots, preg), noAbbreviations) && memory.Some? ==>
        var (p, env) := (Known(slots, preg).value.prog.value, EnvOf(Known(slots, preg).value.prog.value, SubjectOf(memory.value, bounds)));
        && (matched ==> !spent && Occurs(TreeOf(p), env))
        && (!matched && !spent && Steady(TreeOf(p), env) ==> !Occurs(TreeOf(p), env))
    {
      hide ProgOk, Occurs, Steady, TreeOf, SubjectOf;
      matched, spent := false, false;
      var i := Find(preg);
      if i.Some? && slots[i.value].prog.Some? && memory.Some? && !(noAbbreviations && slots[i.value].abbreviation) {
        matched, spent := Search(slots[i.value].prog.value, SubjectOf(memory.value, bounds));
      }
    }

    method RegFree(preg: nat)
      requires Valid()
      modifies this
      ensures Valid() && Known(slots, preg) == None
      ensures forall q :: q != preg ==> Known(slots, q) == old(Known(slots, q))
    {
      hide ProgOk, Known;
      ghost var was := slots;
      var i := Find(preg);
      if i.Some? {
        slots := slots[i.value := slots[i.value].(prog := None, preg := NULL_PREG)];
      }
      forall q ensures q == preg ==> Known(slots, q) == None
               ensures q != preg ==> Known(slots, q) == Known(was, q)
      {
        FreedKeeps(was, slots, preg, q);
      }
    }
  }

  /** The address has a program and it is not suppressed. */
  ghost predicate Speaks(known: Option<Slot>, noAbbreviations: bool) {
    known.Some? && known.value.prog.Some? && !(noAbbreviations && known.value.abbreviation)
  }

  lemma FreedKeeps(was: seq<Slot>, slots: seq<Slot>, preg: nat, q: nat)
    requires SlotsOk(was) && |slots| == |was|
    requires var i := if preg == NULL_PREG then None else IndexOf(was, preg, 0);
      slots == if i.None? then was else was[i.value := was[i.value].(prog := None, preg := NULL_PREG)]
    ensures q == preg ==> Known(slots, q) == None
    ensures q != preg ==> Known(slots, q) == Known(was, q)
  {
    hide ProgOk;
    if q != NULL_PREG {
      var at := IndexOf(was, q, 0);
      if q == preg || at.None? {
        KnownNone(slots, q);
      } else {
        KnownIs(slots, q, at.value);
      }
    }
  }
}
