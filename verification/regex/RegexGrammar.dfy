/** The grammar the compiler reads: a recursive-descent parse of a pattern into a syntax tree. */
module RegexGrammar {
  import opened Characters
  import opened Wrappers
  import opened RegexProgram

  datatype Parsed = Bad | Good(e: Ere, pos: nat)
  datatype ParsedSet = BadSet | GoodSet(members: set<char>, pos: nat)
  datatype Interval = NoInterval | Interval(lo: nat, hi: nat, pos: nat)

  /** A pattern with the two flags the parse depends on. */
  datatype Source = Source(text: CString, icase: bool, newline: bool)

  const NUL := '\0'

  // ----- character classes of the C locale

  predicate IsGraph(c: char) { 33 <= c as int <= 126 }

  predicate InClass(name: string, c: char)
    requires c as int < 256
  {
    if name == "alpha" then IsAlpha(c)
    else if name == "digit" then IsDigit(c)
    else if name == "alnum" then IsAlpha(c) || IsDigit(c)
    else if name == "upper" then IsUpper(c)
    else if name == "lower" then IsLower(c)
    else if name == "space" then c == ' ' || 9 <= c as int <= 13
    else if name == "punct" then IsGraph(c) && !IsAlpha(c) && !IsDigit(c)
    else if name == "print" then IsGraph(c) || c == ' '
    else if name == "graph" then IsGraph(c)
    else if name == "cntrl" then c as int < 32 || c as int == 127
    else if name == "blank" then c == ' ' || c == '\t'
    else name == "xdigit" && (IsDigit(c) || 'A' <= c <= 'F' || 'a' <= c <= 'f')
  }

  const CLASS_NAMES: set<string> :=
    {"alpha", "digit", "alnum", "upper", "lower", "space", "punct", "print", "graph", "cntrl", "blank", "xdigit"}

  function ClassMembers(name: string): Option<set<char>> {
    if name in CLASS_NAMES then Some(set c: char | c as int < 256 && InClass(name, c)) else None
  }

  // ----- bracket expressions

  /** `strstr`: the first place at or after `from` where `kind` is followed by `]`. */
  function FindClose(text: CString, from: nat, kind: char): (e: Option<nat>)
    ensures e.Some? ==> from <= e.value && e.value + 1 < |text|
    ensures e.Some? ==> text[e.value] == kind && text[e.value + 1] == ']'
    ensures forall i: nat | from <= i && i + 1 < |text| && (e.Some? ==> i < e.value) ::
              !(text[i] == kind && text[i + 1] == ']')
    decreases |text| - from
  {
    if from + 1 >= |text| then None
    else if text[from] == kind && text[from + 1] == ']' then Some(from)
    else FindClose(text, from + 1, kind)
  }

  predicate OpensNamed(text: CString, pos: nat) {
    At(text, pos) == '[' && At(text, pos + 1) in {':', '.', '='}
  }

  predicate IsRange(text: CString, pos: nat) {
    At(text, pos + 1) == '-' && At(text, pos + 2) != NUL && At(text, pos + 2) != ']'
  }

  predicate Between(lo: char, c: char, hi: char) { lo <= c <= hi }

  function Span(lo: char, hi: char): set<char> {
    set c: char | Between(lo, c, hi)
  }

  /** The element at `pos`: a named class or element, a range, or a character; and where the next one is. */
  function Element(text: CString, pos: nat): (r: ParsedSet)
    requires pos < |text|
    ensures r.GoodSet? ==> pos < r.pos <= |text|
  {
    if OpensNamed(text, pos) then
      var kind := At(text, pos + 1);
      var close := FindClose(text, pos + 2, kind);
      if close.None? then BadSet
      else if kind == ':' then
        var named := ClassMembers(text[pos + 2..close.value]);
        if named.None? then BadSet else GoodSet(named.value, close.value + 2)
      else if close.value != pos + 3 then BadSet
      else GoodSet({text[pos + 2]}, close.value + 2)
    else if IsRange(text, pos) then
      if text[pos + 2] < text[pos] then BadSet else GoodSet(Span(text[pos], text[pos + 2]), pos + 3)
    else GoodSet({text[pos]}, pos + 1)
  }

  /** The members of a bracket expression, up to but not including its closing `]`. */
  function Members(text: CString, work: set<char>, first: bool, pos: nat): (r: ParsedSet)
    ensures r.GoodSet? ==> pos <= r.pos < |text| && text[r.pos] == ']'
    decreases |text| - pos
  {
    if At(text, pos) == NUL then BadSet
    else if At(text, pos) == ']' && !first then GoodSet(work, pos)
    else
      match Element(text, pos)
      case BadSet => BadSet
      case GoodSet(ms, q) => Members(text, work + ms, false, q)
  }

  function Folded(work: set<char>, icase: bool): set<char> {
    if !icase then work
    else work
         + (set c | c in work && IsLower(c) :: (c as int - 32) as char)
         + (set c | c in work && IsUpper(c) :: (c as int + 32) as char)
  }

  function Negated(work: set<char>, newline: bool): set<char> {
    (set c: char | c as int < 256 && c !in work) - (if newline then {'\n'} else {})
  }

  /** A bracket expression whose `[` ends just before `pos`. */
  function Bracket(src: Source, pos: nat): (r: ParsedSet)
    ensures r.GoodSet? ==> pos < r.pos <= |src.text|
  {
    var negate := At(src.text, pos) == '^';
    match Members(src.text, {}, true, if negate then pos + 1 else pos)
    case BadSet => BadSet
    case GoodSet(work, q) =>
      var folded := Folded(work, src.icase);
      GoodSet(if negate then Negated(folded, src.newline) else folded, q + 1)
  }

  // ----- intervals

  /** A run of digits, accumulated in an unsigned 32-bit integer. */
  function Digits(text: CString, pos: nat, n: nat): (r: (nat, nat))
    requires n < UINT_RANGE
    ensures pos <= r.1 && r.0 < UINT_RANGE && (pos <= |text| ==> r.1 <= |text|)
    decreases |text| - pos
  {
    if IsDigit(At(text, pos)) then
      Digits(text, pos + 1, (n * 10 + (At(text, pos) as int - '0' as int)) % UINT_RANGE)
    else (n, pos)
  }

  /** `{2,}`, `{3}` or `{1,3}` at `pos`; anything else makes the brace an ordinary character. */
  function ReadInterval(text: CString, pos: nat): (r: Interval)
    ensures r.Interval? ==> pos < r.pos <= |text| && WithinHi(r.lo, r.hi)
  {
    if At(text, pos) != '{' || !IsDigit(At(text, pos + 1)) then NoInterval
    else
      var (lo, p) := Digits(text, pos + 1, 0);
      if At(text, p) != ',' then
        if At(text, p) == '}' then Interval(lo, lo, p + 1) else NoInterval
      else if At(text, p + 1) == '}' then Interval(lo, RE_INF, p + 2)
      else if !IsDigit(At(text, p + 1)) then NoInterval
      else
        var (hi, q) := Digits(text, p + 1, 0);
        if At(text, q) == '}' && WithinHi(lo, hi) then Interval(lo, hi, q + 1) else NoInterval
  }

  /** The repetition operator at `pos`, if there is one. */
  function Operator(text: CString, pos: nat): (r: Interval)
    ensures r.Interval? ==> pos < r.pos <= |text| && WithinHi(r.lo, r.hi)
  {
    match At(text, pos)
    case '*' => Interval(0, RE_INF, pos + 1)
    case '+' => Interval(1, RE_INF, pos + 1)
    case '?' => Interval(0, 1, pos + 1)
    case _ => ReadInterval(text, pos)
  }

  // ----- the grammar proper

  predicate EndsCat(c: char) {
    c == NUL || c == '|' || c == ')'
  }

  function ParseAlt(src: Source, pos: nat): (r: Parsed)
    requires pos <= |src.text|
    ensures r.Good? ==> pos <= r.pos <= |src.text| && BoundsOk(r.e)
    decreases |src.text| - pos, 6
  {
    match ParseCat(src, None, pos)
    case Bad => Bad
    case Good(e, q) => ParseAltMore(src, e, q)
  }

  function ParseAltMore(src: Source, acc: Ere, pos: nat): (r: Parsed)
    requires pos <= |src.text| && BoundsOk(acc)
    ensures r.Good? ==> pos <= r.pos <= |src.text| && BoundsOk(r.e)
    decreases |src.text| - pos, 5
  {
    if At(src.text, pos) != '|' then Good(acc, pos)
    else match ParseCat(src, None, pos + 1)
      case Bad => Bad
      case Good(b, q) => ParseAltMore(src, Alt(acc, b), q)
  }

  function ParseCat(src: Source, acc: Option<Ere>, pos: nat): (r: Parsed)
    requires pos <= |src.text| && (acc.Some? ==> BoundsOk(acc.value))
    ensures r.Good? ==> pos <= r.pos <= |src.text| && BoundsOk(r.e) && EndsCat(At(src.text, r.pos))
    decreases |src.text| - pos, 4
  {
    if EndsCat(At(src.text, pos)) then Good(if acc.Some? then acc.value else Empty, pos)
    else match ParseRep(src, pos)
      case Bad => Bad
      case Good(e, q) => ParseCat(src, Some(if acc.Some? then Cat(acc.value, e) else e), q)
  }

  function ParseRep(src: Source, pos: nat): (r: Parsed)
    requires pos <= |src.text|
    ensures r.Good? ==> pos < r.pos <= |src.text| && BoundsOk(r.e)
    decreases |src.text| - pos, 3
  {
    match ParseAtom(src, pos)
    case Bad => Bad
    case Good(e, q) => ParseRepMore(src, e, q)
  }

  function ParseRepMore(src: Source, acc: Ere, pos: nat): (r: Parsed)
    requires pos <= |src.text| && BoundsOk(acc)
    ensures r.Good? && pos <= r.pos <= |src.text| && BoundsOk(r.e)
    decreases |src.text| - pos, 2
  {
    match Operator(src.text, pos)
    case NoInterval => Good(acc, pos)
    case Interval(lo, hi, q) => ParseRepMore(src, Rep(acc, lo, hi), q)
  }

  function ParseAtom(src: Source, pos: nat): (r: Parsed)
    requires pos <= |src.text|
    ensures r.Good? ==> pos < r.pos <= |src.text| && BoundsOk(r.e)
    decreases |src.text| - pos, 1
  {
    match At(src.text, pos)
    case '(' =>
      (match ParseAlt(src, pos + 1)
       case Bad => Bad
       case Good(e, q) => if At(src.text, q) == ')' then Good(e, q + 1) else Bad)
    case '[' =>
      (match Bracket(src, pos + 1)
       case BadSet => Bad
       case GoodSet(ms, q) => Good(OneOf(ms), q))
    case '.' => Good(Any, pos + 1)
    case '^' => Good(Bol, pos + 1)
    case '$' => Good(Eol, pos + 1)
    case '\\' => if At(src.text, pos + 1) == NUL then Bad else Good(Lit(src.text[pos + 1]), pos + 2)
    case c =>
      if c == ')' || c == NUL || c == '*' || c == '+' || c == '?' then Bad
      else Good(Lit(c), pos + 1)
  }

  /** A whole pattern: the parse has to use all of it. */
  function ParsePattern(src: Source): Option<Ere> {
    match ParseAlt(src, 0)
    case Bad => None
    case Good(e, q) => if q == |src.text| then Some(e) else None
  }
}
