/** A canonical printer for syntax trees, and its inversion by the compiler's grammar. */
module RegexPrinter {
  import opened Characters
  import opened Wrappers
  import opened RegexProgram
  import opened RegexGrammar
  import opened RegexCompiler

  function Dec(n: nat): (s: string)
    ensures |s| > 0 && AllDigits(s)
  {
    if n < 10 then [('0' as int + n) as char] else Dec(n / 10) + [('0' as int + n % 10) as char]
  }

  function MemberText(c: char): string {
    ['[', '.', c, '.', ']']
  }

  /** Each member as a collating element, in byte order. */
  function MembersText(ms: set<char>, from: nat): string
    decreases 256 - from
  {
    if from >= 256 then ""
    else (if from as char in ms then MemberText(from as char) else "") + MembersText(ms, from + 1)
  }

  /** An expression as a single atom. */
  function Unit(e: Ere): string
    decreases e, 1
  {
    match e
    case Lit(c) => "\\" + [c]
    case Any => "."
    case Bol => "^"
    case Eol => "$"
    case OneOf(ms) => "[" + MembersText(ms, 0) + "]"
    case _ => "(" + Print(e) + ")"
  }

  function IntervalText(lo: nat, hi: nat): string {
    "{" + Dec(lo) + "," + (if hi == RE_INF then "" else Dec(hi)) + "}"
  }

  function Print(e: Ere): string
    decreases e, 0
  {
    match e
    case Empty => ""
    case Lit(c) => "\\" + [c]
    case Any => "."
    case Bol => "^"
    case Eol => "$"
    case OneOf(ms) => "[" + MembersText(ms, 0) + "]"
    case Cat(l, r) => Unit(l) + Unit(r)
    case Alt(l, r) => Unit(l) + "|" + Unit(r)
    case Rep(b, lo, hi) => Unit(b) + IntervalText(lo, hi)
  }

  predicate ByteChar(c: char) { 0 < c as int < 256 }

  /** Trees a pattern can spell: bytes, nonempty brackets, ordered bounds that fit. */
  predicate Printable(e: Ere) {
    match e
    case Lit(c) => ByteChar(c)
    case OneOf(ms) => ms != {} && forall c :: c in ms ==> ByteChar(c)
    case Cat(l, r) => Printable(l) && Printable(r)
    case Alt(l, r) => Printable(l) && Printable(r)
    case Rep(b, lo, hi) => Printable(b) && lo < UINT_RANGE && hi < UINT_RANGE && WithinHi(lo, hi)
    case _ => true
  }

  // ----- reading a known stretch of text

  predicate Holds(text: string, p: nat, t: string) {
    p + |t| <= |text| && forall i :: 0 <= i < |t| ==> text[p + i] == t[i]
  }

  lemma HoldsParts(text: string, p: nat, a: string, b: string)
    requires Holds(text, p, a + b)
    ensures Holds(text, p, a) && Holds(text, p + |a|, b)
  {
    forall i | 0 <= i < |a| ensures text[p + i] == a[i] {
      assert (a + b)[i] == a[i];
    }
    forall i | 0 <= i < |b| ensures text[p + |a| + i] == b[i] {
      assert (a + b)[|a| + i] == b[i];
    }
  }

  lemma HoldsAt(text: string, p: nat, t: string, i: nat)
    requires Holds(text, p, t) && i < |t|
    ensures p + i < |text| && text[p + i] == t[i] && At(text, p + i) == t[i]
  {
  }

  lemma HoldsTail(text: string, p: nat, t: string)
    requires Holds(text, p, t) && t != ""
    ensures Holds(text, p + 1, t[1..])
  {
    forall i | 0 <= i < |t| - 1 ensures text[p + 1 + i] == t[1..][i] {
      HoldsAt(text, p, t, i + 1);
    }
  }

  // ----- digits

  predicate AllDigits(s: string) {
    forall i :: 0 <= i < |s| ==> IsDigit(s[i])
  }

  function Value(s: string, n: nat): nat
    requires AllDigits(s)
  {
    if s == "" then n
    else
      assert IsDigit(s[|s| - 1]);
      Value(s[..|s| - 1], n) * 10 + (s[|s| - 1] as int - '0' as int)
  }

  lemma {:induction false} ValueFront(s: string, n: nat)
    requires s != "" && AllDigits(s)
    ensures Value(s, n) == Value(s[1..], n * 10 + (s[0] as int - '0' as int))
    decreases |s|
  {
    if |s| > 1 {
      ValueFront(s[..|s| - 1], n);
      assert s[..|s| - 1][1..] == s[1..][..|s| - 2];
    } else {
      assert s[..0] == "" && s[1..] == "";
    }
  }

  lemma {:induction false} ValueGrows(s: string, n: nat)
    requires AllDigits(s)
    ensures Value(s, n) >= n
  {
    if s != "" { ValueGrows(s[..|s| - 1], n); }
  }

  lemma {:induction false} DecValue(n: nat)
    ensures Value(Dec(n), 0) == n
  {
    if n >= 10 {
      DecValue(n / 10);
      assert Dec(n)[..|Dec(n)| - 1] == Dec(n / 10);
    } else {
      assert Dec(n)[..0] == "";
    }
  }

  lemma {:induction false} DigitsRead(text: CString, p: nat, s: string, n: nat)
    requires AllDigits(s)
    requires Holds(text, p, s) && !IsDigit(At(text, p + |s|))
    requires Value(s, n) < UINT_RANGE && n < UINT_RANGE
    ensures Digits(text, p, n) == (Value(s, n), p + |s|)
    decreases |s|
  {
    hide Value, Holds, At;
    if s == "" {
      NoDigitsLeft(n);
    } else {
      var d := s[0] as int - '0' as int;
      HoldsAt(text, p, s, 0);
      HoldsTail(text, p, s);
      ValueFront(s, n);
      ValueGrows(s[1..], n * 10 + d);
      DigitsRead(text, p + 1, s[1..], n * 10 + d);
    }
  }

  lemma NoDigitsLeft(n: nat)
    ensures Value("", n) == n
  {
  }

  lemma NumberRead(text: CString, p: nat, n: nat)
    requires n < UINT_RANGE && Holds(text, p, Dec(n)) && !IsDigit(At(text, p + |Dec(n)|))
    ensures IsDigit(At(text, p)) && Digits(text, p, 0) == (n, p + |Dec(n)|)
  {
    HoldsAt(text, p, Dec(n), 0);
    DecValue(n);
    DigitsRead(text, p, Dec(n), 0);
  }

  lemma OpenIntervalRead(text: CString, p: nat, lo: nat, q: nat)
    requires At(text, p) == '{' && IsDigit(At(text, p + 1)) && Digits(text, p + 1, 0) == (lo, q)
    requires At(text, q) == ',' && At(text, q + 1) == '}'
    ensures ReadInterval(text, p) == Interval(lo, RE_INF, q + 2)
  {
  }

  lemma ClosedIntervalRead(text: CString, p: nat, lo: nat, q: nat, hi: nat, r: nat)
    requires At(text, p) == '{' && IsDigit(At(text, p + 1)) && Digits(text, p + 1, 0) == (lo, q)
    requires At(text, q) == ',' && IsDigit(At(text, q + 1)) && Digits(text, q + 1, 0) == (hi, r)
    requires At(text, r) == '}' && WithinHi(lo, hi)
    ensures ReadInterval(text, p) == Interval(lo, hi, r + 1)
  {
  }

  lemma BracedParts(text: string, p: nat, a: string, b: string)
    requires Holds(text, p, "{" + a + "," + b + "}")
    ensures At(text, p) == '{' && Holds(text, p + 1, a) && At(text, p + 1 + |a|) == ','
    ensures Holds(text, p + 2 + |a|, b) && At(text, p + 2 + |a| + |b|) == '}'
  {
    HoldsParts(text, p, "{" + a + "," + b, "}");
    HoldsParts(text, p, "{" + a + ",", b);
    HoldsParts(text, p, "{" + a, ",");
    HoldsParts(text, p, "{", a);
    HoldsAt(text, p, "{", 0);
    HoldsAt(text, p + 1 + |a|, ",", 0);
    HoldsAt(text, p + 2 + |a| + |b|, "}", 0);
  }

  lemma IntervalRead(text: CString, p: nat, lo: nat, hi: nat)
    requires lo < UINT_RANGE && hi < UINT_RANGE && WithinHi(lo, hi)
    requires Holds(text, p, IntervalText(lo, hi))
    ensures ReadInterval(text, p) == Interval(lo, hi, p + |IntervalText(lo, hi)|)
  {
    var a, b := Dec(lo), if hi == RE_INF then "" else Dec(hi);
    BracedParts(text, p, a, b);
    NumberRead(text, p + 1, lo);
    if hi == RE_INF {
      OpenIntervalRead(text, p, lo, p + 1 + |a|);
    } else {
      NumberRead(text, p + 2 + |a|, hi);
      ClosedIntervalRead(text, p, lo, p + 1 + |a|, hi, p + 2 + |a| + |b|);
    }
  }

  // ----- bracket members

  function MembersFrom(ms: set<char>, from: nat): set<char> {
    set c | c in ms && from <= c as int < 256
  }

  lemma MemberRead(text: CString, c: char, work: set<char>, first: bool, p: nat)
    requires ByteChar(c) && Holds(text, p, MemberText(c))
    ensures Members(text, work, first, p) == Members(text, work + {c}, false, p + 5)
  {
    var one := MemberText(c);
    HoldsAt(text, p, one, 0);
    HoldsAt(text, p, one, 1);
    HoldsAt(text, p, one, 2);
    HoldsAt(text, p, one, 3);
    HoldsAt(text, p, one, 4);
    assert FindClose(text, p + 2, '.') == FindClose(text, p + 3, '.') == Some(p + 3);
  }

  lemma {:induction false} MembersRead(text: CString, ms: set<char>, from: nat, work: set<char>, first: bool, p: nat)
    requires from <= 256 && (forall c :: c in ms ==> ByteChar(c))
    requires Holds(text, p, MembersText(ms, from) + "]")
    requires first ==> MembersFrom(ms, from) != {}
    ensures Members(text, work, first, p) == GoodSet(work + MembersFrom(ms, from), p + |MembersText(ms, from)|)
    decreases 256 - from
  {
    hide Holds, MemberText, Members, MembersFrom;
    if from == 256 {
      assert MembersText(ms, from) + "]" == "]";
      AllRead(text, ms, work, first, p);
    } else if from as char in ms {
      var c := from as char;
      var rest := MembersText(ms, from + 1);
      assert MembersText(ms, from) + "]" == MemberText(c) + (rest + "]");
      HoldsParts(text, p, MemberText(c), rest + "]");
      MemberRead(text, c, work, first, p);
      MemberTextLen(c);
      MembersRead(text, ms, from + 1, work + {c}, false, p + 5);
      OneMoreMember(ms, from, work);
    } else {
      assert MembersText(ms, from) == MembersText(ms, from + 1);
      OneMoreMember(ms, from, work);
      MembersRead(text, ms, from + 1, work, first, p);
    }
  }

  lemma MemberTextLen(c: char)
    ensures |MemberText(c)| == 5
  {
  }

  lemma OneMoreMember(ms: set<char>, from: nat, work: set<char>)
    requires from < 256
    ensures from as char in ms ==> work + {from as char} + MembersFrom(ms, from + 1) == work + MembersFrom(ms, from)
    ensures from as char !in ms ==> MembersFrom(ms, from) == MembersFrom(ms, from + 1)
  {
    if from as char in ms {
      assert MembersFrom(ms, from) == {from as char} + MembersFrom(ms, from + 1);
    }
  }

  lemma AllRead(text: CString, ms: set<char>, work: set<char>, first: bool, p: nat)
    requires Holds(text, p, "]") && (first ==> MembersFrom(ms, 256) != {})
    ensures Members(text, work, first, p) == GoodSet(work + MembersFrom(ms, 256), p)
  {
    HoldsAt(text, p, "]", 0);
    assert MembersFrom(ms, 256) == {};
    assert work + {} == work;
  }

  lemma PlainBracket(src: Source, ms: set<char>, p: nat, q: nat)
    requires !src.icase && At(src.text, p) != '^' && Members(src.text, {}, true, p) == GoodSet(ms, q)
    ensures Bracket(src, p) == GoodSet(ms, q + 1)
  {
  }

  lemma BracketRead(src: Source, ms: set<char>, p: nat)
    requires !src.icase && ms != {} && (forall c :: c in ms ==> ByteChar(c))
    requires Holds(src.text, p, MembersText(ms, 0) + "]")
    ensures Bracket(src, p) == GoodSet(ms, p + |MembersText(ms, 0)| + 1)
  {
    hide Members, MembersText, MembersFrom, Bracket, Holds, At;
    AllMembers(ms);
    MembersStart(ms, 0);
    MembersRead(src.text, ms, 0, {}, true, p);
    assert {} + ms == ms;
    FirstByte(src.text, p, MembersText(ms, 0), "]");
    PlainBracket(src, ms, p, p + |MembersText(ms, 0)|);
  }

  lemma AllMembers(ms: set<char>)
    requires forall c :: c in ms ==> ByteChar(c)
    ensures MembersFrom(ms, 0) == ms
  {
  }

  lemma FirstByte(text: string, p: nat, a: string, b: string)
    requires a != "" && Holds(text, p, a + b)
    ensures At(text, p) == a[0]
  {
    assert (a + b)[0] == a[0];
    HoldsAt(text, p, a + b, 0);
  }

  lemma {:induction false} MembersStart(ms: set<char>, from: nat)
    requires from <= 256 && MembersFrom(ms, from) != {}
    ensures |MembersText(ms, from)| > 0 && MembersText(ms, from)[0] == '['
    decreases 256 - from
  {
    if from == 256 {
    } else if from as char in ms {
    } else {
      assert MembersFrom(ms, from) == MembersFrom(ms, from + 1);
      MembersStart(ms, from + 1);
    }
  }

  // ----- the inversion

  lemma UnitStart(e: Ere)
    ensures |Unit(e)| > 0 && Unit(e)[0] in {'\\', '.', '^', '$', '[', '('}
  {
  }

  predicate OneByte(e: Ere) {
    e.Lit? || e.Any? || e.Bol? || e.Eol?
  }

  lemma ByteRead(src: Source, p: nat, e: Ere)
    requires Printable(e) && OneByte(e) && Holds(src.text, p, Unit(e))
    ensures ParseAtom(src, p) == Good(e, p + |Unit(e)|)
  {
    HoldsAt(src.text, p, Unit(e), 0);
    if e.Lit? { HoldsAt(src.text, p, Unit(e), 1); }
  }

  lemma SetRead(src: Source, p: nat, e: Ere)
    requires !src.icase && Printable(e) && e.OneOf? && Holds(src.text, p, Unit(e))
    ensures ParseAtom(src, p) == Good(e, p + |Unit(e)|)
  {
    hide ParseAtom, Bracket, Holds, MembersText;
    var tail := MembersText(e.members, 0) + "]";
    assert Unit(e) == "[" + tail;
    HoldsParts(src.text, p, "[", tail);
    HoldsAt(src.text, p, "[", 0);
    BracketRead(src, e.members, p + 1);
    SetAtom(src, p, e.members, p + |Unit(e)|);
  }

  lemma SetAtom(src: Source, p: nat, ms: set<char>, end: nat)
    requires At(src.text, p) == '[' && Bracket(src, p + 1) == GoodSet(ms, end)
    ensures ParseAtom(src, p) == Good(OneOf(ms), end)
  {
    hide Bracket;
  }

  lemma GroupRead(src: Source, p: nat, e: Ere)
    requires Holds(src.text, p, "(" + Print(e) + ")")
    requires ParseAlt(src, p + 1) == Good(e, p + 1 + |Print(e)|)
    ensures ParseAtom(src, p) == Good(e, p + |Print(e)| + 2)
  {
    hide ParseAlt, ParseCat, ParseRep, Print;
    HoldsAt(src.text, p, "(" + Print(e) + ")", 0);
    HoldsAt(src.text, p, "(" + Print(e) + ")", 1 + |Print(e)|);
  }

  /** A unit, wherever it stands in a pattern, is read as one atom. */
  lemma {:induction false} UnitRead(src: Source, p: nat, e: Ere)
    requires !src.icase && Printable(e) && Holds(src.text, p, Unit(e))
    ensures ParseAtom(src, p) == Good(e, p + |Unit(e)|)
    decreases e, 2
  {
    hide ParseAtom, ParseAlt, ParseCat, ParseRep, ParseAltMore, ParseRepMore, Bracket, MembersText;
    if OneByte(e) {
      ByteRead(src, p, e);
    } else if e.OneOf? {
      SetRead(src, p, e);
    } else {
      HoldsParts(src.text, p, "(" + Print(e), ")");
      HoldsParts(src.text, p, "(", Print(e));
      HoldsAt(src.text, p + 1 + |Print(e)|, ")", 0);
      PrintRead(src, p + 1, e);
      GroupRead(src, p, e);
    }
  }

  /** One unit with no operator after it is read as one factor. */
  lemma FactorRead(src: Source, p: nat, e: Ere)
    requires !src.icase && Printable(e) && Holds(src.text, p, Unit(e))
    requires ParseAtom(src, p) == Good(e, p + |Unit(e)|)
    requires At(src.text, p + |Unit(e)|) !in {'*', '+', '?', '{'}
    ensures !EndsCat(At(src.text, p)) && ParseRep(src, p) == Good(e, p + |Unit(e)|)
  {
    UnitStart(e);
    HoldsAt(src.text, p, Unit(e), 0);
  }

  lemma ConcatOfOne(src: Source, p: nat, e: Ere)
    requires !src.icase && Printable(e) && Holds(src.text, p, Unit(e))
    requires ParseAtom(src, p) == Good(e, p + |Unit(e)|)
    requires EndsCat(At(src.text, p + |Unit(e)|))
    ensures ParseCat(src, None, p) == Good(e, p + |Unit(e)|)
  {
    FactorRead(src, p, e);
  }

  lemma CatRead(src: Source, p: nat, l: Ere, q: nat, r: Ere, end: nat)
    requires p < q < end <= |src.text| && BoundsOk(l) && BoundsOk(r)
    requires !EndsCat(At(src.text, p)) && ParseRep(src, p) == Good(l, q)
    requires !EndsCat(At(src.text, q)) && ParseRep(src, q) == Good(r, end)
    requires EndsCat(At(src.text, end))
    ensures ParseCat(src, None, p) == Good(Cat(l, r), end)
  {
    assert ParseCat(src, None, p) == ParseCat(src, Some(l), q);
    assert ParseCat(src, Some(l), q) == ParseCat(src, Some(Cat(l, r)), end);
  }

  lemma NothingRead(src: Source, p: nat)
    requires EndsCat(At(src.text, p)) && p <= |src.text|
    ensures ParseCat(src, None, p) == Good(Empty, p)
  {
  }

  lemma AltOfCat(src: Source, p: nat, e: Ere, end: nat)
    requires p <= end <= |src.text| && BoundsOk(e)
    requires ParseCat(src, None, p) == Good(e, end) && At(src.text, end) != '|'
    ensures ParseAlt(src, p) == Good(e, end)
  {
  }

  lemma PrintReadCat(src: Source, p: nat, l: Ere, r: Ere)
    requires !src.icase && Printable(l) && Printable(r)
    requires Holds(src.text, p, Unit(l)) && ParseAtom(src, p) == Good(l, p + |Unit(l)|)
    requires var q := p + |Unit(l)|; Holds(src.text, q, Unit(r)) && ParseAtom(src, q) == Good(r, q + |Unit(r)|)
    requires At(src.text, p + |Unit(l)| + |Unit(r)|) in {NUL, ')'}
    ensures ParseAlt(src, p) == Good(Cat(l, r), p + |Unit(l)| + |Unit(r)|)
  {
    hide ParseAlt, ParseCat, ParseRep, ParseAtom, ParseAltMore, ParseRepMore, Unit, Printable, Holds;
    var q := p + |Unit(l)|;
    UnitStart(l);
    UnitStart(r);
    HoldsFits(src.text, p, Unit(l));
    HoldsFits(src.text, q, Unit(r));
    HoldsAt(src.text, q, Unit(r), 0);
    FactorRead(src, p, l);
    FactorRead(src, q, r);
    PrintableBoundsOk(l);
    PrintableBoundsOk(r);
    CatRead(src, p, l, q, r, q + |Unit(r)|);
    AltOfCat(src, p, Cat(l, r), q + |Unit(r)|);
  }

  lemma HoldsFits(text: string, p: nat, t: string)
    requires Holds(text, p, t)
    ensures p + |t| <= |text|
  {
  }

  lemma PrintReadAlt(src: Source, p: nat, l: Ere, r: Ere)
    requires !src.icase && Printable(l) && Printable(r)
    requires Holds(src.text, p, Unit(l)) && ParseAtom(src, p) == Good(l, p + |Unit(l)|)
    requires At(src.text, p + |Unit(l)|) == '|'
    requires var q := p + |Unit(l)| + 1; Holds(src.text, q, Unit(r)) && ParseAtom(src, q) == Good(r, q + |Unit(r)|)
    requires At(src.text, p + |Unit(l)| + 1 + |Unit(r)|) in {NUL, ')'}
    ensures ParseAlt(src, p) == Good(Alt(l, r), p + |Unit(l)| + 1 + |Unit(r)|)
  {
    hide ParseAlt, ParseCat, ParseRep, ParseAtom, ParseAltMore, ParseRepMore, Unit, Printable, BoundsOk;
    HoldsFits(src.text, p, Unit(l));
    HoldsFits(src.text, p + |Unit(l)| + 1, Unit(r));
    var q := p + |Unit(l)|;
    ConcatOfOne(src, p, l);
    ConcatOfOne(src, q + 1, r);
    PrintableBoundsOk(l);
    PrintableBoundsOk(r);
    UnitStart(l);
    AltRead(src, p, l, r, q, q + 1 + |Unit(r)|);
  }

  lemma PrintReadRep(src: Source, p: nat, b: Ere, lo: nat, hi: nat)
    requires !src.icase && Printable(Rep(b, lo, hi))
    requires Holds(src.text, p, Unit(b)) && ParseAtom(src, p) == Good(b, p + |Unit(b)|)
    requires Holds(src.text, p + |Unit(b)|, IntervalText(lo, hi))
    requires At(src.text, p + |Unit(b)| + |IntervalText(lo, hi)|) in {NUL, ')'}
    ensures ParseAlt(src, p) == Good(Rep(b, lo, hi), p + |Unit(b)| + |IntervalText(lo, hi)|)
  {
    hide ParseAlt, ParseCat, ParseRep, ParseAtom, ParseAltMore, ParseRepMore, IntervalText, Unit, Operator, Holds, BoundsOk, Printable;
    var q := p + |Unit(b)|;
    IntervalIsOperator(src.text, q, b, lo, hi);
    UnitStart(b);
    HoldsAt(src.text, p, Unit(b), 0);
    PrintableBoundsOk(Rep(b, lo, hi));
    RepRead(src, p, b, lo, hi, q, q + |IntervalText(lo, hi)|);
    AltOfCat(src, p, Rep(b, lo, hi), q + |IntervalText(lo, hi)|);
  }

  lemma IntervalIsOperator(text: CString, q: nat, b: Ere, lo: nat, hi: nat)
    requires Printable(Rep(b, lo, hi)) && Holds(text, q, IntervalText(lo, hi))
    ensures 0 < |IntervalText(lo, hi)| && q + |IntervalText(lo, hi)| <= |text|
    ensures Operator(text, q) == Interval(lo, hi, q + |IntervalText(lo, hi)|)
  {
    hide ReadInterval, Digits, Dec;
    IntervalRead(text, q, lo, hi);
    HoldsAt(text, q, IntervalText(lo, hi), 0);
  }

  lemma AltParts(text: string, p: nat, a: string, b: string)
    requires Holds(text, p, a + "|" + b)
    ensures Holds(text, p, a) && At(text, p + |a|) == '|' && Holds(text, p + |a| + 1, b)
  {
    HoldsParts(text, p, a + "|", b);
    HoldsParts(text, p, a, "|");
    HoldsAt(text, p + |a|, "|", 0);
  }

  lemma AltRead(src: Source, p: nat, l: Ere, r: Ere, q: nat, end: nat)
    requires p < q < end <= |src.text| && At(src.text, q) == '|' && At(src.text, end) != '|'
    requires BoundsOk(l) && BoundsOk(r)
    requires ParseCat(src, None, p) == Good(l, q) && ParseCat(src, None, q + 1) == Good(r, end)
    ensures ParseAlt(src, p) == Good(Alt(l, r), end)
  {
    assert ParseAltMore(src, l, q) == ParseAltMore(src, Alt(l, r), end);
  }

  lemma RepRead(src: Source, p: nat, b: Ere, lo: nat, hi: nat, q: nat, end: nat)
    requires p < q < end <= |src.text| && BoundsOk(Rep(b, lo, hi))
    requires !EndsCat(At(src.text, p)) && ParseAtom(src, p) == Good(b, q)
    requires Operator(src.text, q) == Interval(lo, hi, end)
    requires EndsCat(At(src.text, end))
    ensures ParseCat(src, None, p) == Good(Rep(b, lo, hi), end)
  {
    assert Operator(src.text, end) == NoInterval;
    assert ParseRepMore(src, b, q) == ParseRepMore(src, Rep(b, lo, hi), end) == Good(Rep(b, lo, hi), end);
    assert ParseRep(src, p) == Good(Rep(b, lo, hi), end);
    assert ParseCat(src, None, p) == ParseCat(src, Some(Rep(b, lo, hi)), end);
  }

  lemma {:induction false} PrintableBoundsOk(e: Ere)
    requires Printable(e)
    ensures BoundsOk(e)
  {
    match e
    case Cat(l, r) => PrintableBoundsOk(l); PrintableBoundsOk(r);
    case Alt(l, r) => PrintableBoundsOk(l); PrintableBoundsOk(r);
    case Rep(b, _, _) => PrintableBoundsOk(b);
    case _ =>
  }

  lemma PrintReadLeaf(src: Source, p: nat, e: Ere)
    requires e.Empty? || OneByte(e) || e.OneOf?
    requires !src.icase && Printable(e) && Holds(src.text, p, Print(e))
    requires At(src.text, p + |Print(e)|) in {NUL, ')'}
    ensures ParseAlt(src, p) == Good(e, p + |Print(e)|)
  {
    hide ParseAlt, ParseCat, ParseRep, ParseAtom, ParseAltMore, ParseRepMore;
    if e.Empty? {
      NothingRead(src, p);
    } else {
      assert Print(e) == Unit(e);
      if OneByte(e) { ByteRead(src, p, e); } else { SetRead(src, p, e); }
      ConcatOfOne(src, p, e);
    }
    AltOfCat(src, p, e, p + |Print(e)|);
  }

  lemma {:induction false} CatCase(src: Source, p: nat, l: Ere, r: Ere)
    requires !src.icase && Printable(l) && Printable(r) && Holds(src.text, p, Unit(l) + Unit(r))
    requires At(src.text, p + |Unit(l)| + |Unit(r)|) in {NUL, ')'}
    ensures ParseAlt(src, p) == Good(Cat(l, r), p + |Unit(l)| + |Unit(r)|)
    decreases Cat(l, r), 0
  {
    hide ParseAlt, ParseCat, ParseRep, ParseAtom, ParseAltMore, ParseRepMore, Holds, Unit, At;
    HoldsParts(src.text, p, Unit(l), Unit(r));
    UnitRead(src, p, l);
    UnitRead(src, p + |Unit(l)|, r);
    PrintReadCat(src, p, l, r);
  }

  lemma {:induction false} AltCase(src: Source, p: nat, l: Ere, r: Ere)
    requires !src.icase && Printable(l) && Printable(r) && Holds(src.text, p, Unit(l) + "|" + Unit(r))
    requires At(src.text, p + |Unit(l)| + 1 + |Unit(r)|) in {NUL, ')'}
    ensures ParseAlt(src, p) == Good(Alt(l, r), p + |Unit(l)| + 1 + |Unit(r)|)
    decreases Alt(l, r), 0
  {
    hide ParseAlt, ParseCat, ParseRep, ParseAtom, ParseAltMore, ParseRepMore, Holds, Unit, At;
    AltParts(src.text, p, Unit(l), Unit(r));
    UnitRead(src, p, l);
    UnitRead(src, p + |Unit(l)| + 1, r);
    PrintReadAlt(src, p, l, r);
  }

  lemma {:induction false} RepCase(src: Source, p: nat, b: Ere, lo: nat, hi: nat)
    requires !src.icase && Printable(Rep(b, lo, hi)) && Holds(src.text, p, Unit(b) + IntervalText(lo, hi))
    requires At(src.text, p + |Unit(b)| + |IntervalText(lo, hi)|) in {NUL, ')'}
    ensures ParseAlt(src, p) == Good(Rep(b, lo, hi), p + |Unit(b)| + |IntervalText(lo, hi)|)
    decreases Rep(b, lo, hi), 0
  {
    hide ParseAlt, ParseCat, ParseRep, ParseAtom, ParseAltMore, ParseRepMore, Holds, Unit, At;
    HoldsParts(src.text, p, Unit(b), IntervalText(lo, hi));
    UnitRead(src, p, b);
    PrintReadRep(src, p, b, lo, hi);
  }

  lemma {:induction false} PrintRead(src: Source, p: nat, e: Ere)
    requires !src.icase && Printable(e) && Holds(src.text, p, Print(e))
    requires At(src.text, p + |Print(e)|) in {NUL, ')'}
    ensures ParseAlt(src, p) == Good(e, p + |Print(e)|)
    decreases e, 1
  {
    hide ParseAlt, ParseCat, ParseRep, ParseAtom, ParseAltMore, ParseRepMore;
    match e
    case Cat(l, r) => CatCase(src, p, l, r);
    case Alt(l, r) => AltCase(src, p, l, r);
    case Rep(b, lo, hi) => RepCase(src, p, b, lo, hi);
    case _ => PrintReadLeaf(src, p, e);
  }

  lemma {:induction false} MembersTextIsCString(ms: set<char>, from: nat)
    requires forall c :: c in ms ==> ByteChar(c)
    ensures IsCString(MembersText(ms, from))
    decreases 256 - from
  {
    if from < 256 {
      MembersTextIsCString(ms, from + 1);
    }
  }

  lemma DigitsAreCString(s: string)
    requires AllDigits(s)
    ensures IsCString(s)
  {
  }

  lemma Concatenated(a: string, b: string)
    requires IsCString(a) && IsCString(b)
    ensures IsCString(a + b)
  {
  }

  lemma Enclosed(open_: char, s: string, close: char)
    requires IsCString(s) && ByteChar(open_) && ByteChar(close)
    ensures IsCString([open_] + s + [close])
  {
  }

  lemma IntervalIsCString(lo: nat, hi: nat)
    ensures IsCString(IntervalText(lo, hi))
  {
    var a, b := Dec(lo), if hi == RE_INF then "" else Dec(hi);
    DigitsAreCString(a);
    DigitsAreCString(b);
    Concatenated(a, ",");
    Concatenated(a + ",", b);
    Enclosed('{', a + "," + b, '}');
    assert IntervalText(lo, hi) == ['{'] + (a + "," + b) + ['}'];
  }

  /** What is printed is a pattern: it holds no NUL and only bytes. */
  lemma {:induction false} PrintIsCString(e: Ere)
    requires Printable(e)
    ensures IsCString(Print(e))
    decreases e, 0
  {
    hide IntervalText, Unit, MembersText, Dec, IsCString;
    match e
    case Cat(l, r) => UnitIsCString(l); UnitIsCString(r); Concatenated(Unit(l), Unit(r));
    case Alt(l, r) =>
      UnitIsCString(l);
      UnitIsCString(r);
      OneBytes('|');
      Concatenated(Unit(l), "|");
      Concatenated(Unit(l) + "|", Unit(r));
    case Rep(b, lo, hi) => UnitIsCString(b); IntervalIsCString(lo, hi); Concatenated(Unit(b), IntervalText(lo, hi));
    case _ => LeafIsCString(e);
  }

  lemma OneBytes(c: char)
    requires ByteChar(c)
    ensures IsCString([c])
  {
  }

  lemma LeafIsCString(e: Ere)
    requires Printable(e) && (e.Empty? || OneByte(e) || e.OneOf?)
    ensures IsCString(Print(e))
  {
    if e.OneOf? {
      MembersTextIsCString(e.members, 0);
      Enclosed('[', MembersText(e.members, 0), ']');
    }
  }

  lemma {:induction false} UnitIsCString(e: Ere)
    requires Printable(e)
    ensures IsCString(Unit(e))
    decreases e, 1
  {
    PrintIsCString(e);
    if !OneByte(e) && !e.OneOf? {
      Enclosed('(', Print(e), ')');
    }
  }

  /** The grammar inverts the printer: a printed tree parses to itself, all of it used. */
  lemma PrintThenParse(e: Ere, newline: bool)
    requires Printable(e)
    ensures IsCString(Print(e)) && ParsePattern(Source(Print(e), false, newline)) == Some(e)
  {
    PrintIsCString(e);
    var src := Source(Print(e), false, newline);
    PrintRead(src, 0, e);
  }

  /** And so does the compiler: the program of a printed tree stands for that tree. */
  method CompilePrinted(e: Ere, newline: bool) returns (p: Prog)
    requires Printable(e)
    ensures ProgOk(p) && TreeOf(p) == e && !p.icase && p.newline == newline
  {
    PrintThenParse(e, newline);
    var r := Compile(Print(e), true, false, newline);
    p := r.value;
  }
}
