/** The compiler: a cursor moving over the pattern while the node arena and the set table
    grow behind it.  Each method is proved against the grammar it reads. */
module RegexCompiler {
  import opened Characters
  import opened Wrappers
  import opened RegexProgram
  import opened RegexGrammar

  /** `re_interval`: digits into an unsigned integer that wraps. */
  method ScanDigits(text: CString, start: nat) returns (n: nat, p: nat)
    requires start <= |text|
    ensures (n, p) == Digits(text, start, 0)
  {
    n, p := 0, start;
    while IsDigit(At(text, p))
      invariant start <= p <= |text| && n < UINT_RANGE
      invariant Digits(text, start, 0) == Digits(text, p, n)
      decreases |text| - p
    {
      n := (n * 10 + (text[p] as int - '0' as int)) % UINT_RANGE;
      p := p + 1;
    }
  }

  method ScanInterval(text: CString, pos: nat) returns (r: Interval)
    requires pos <= |text|
    ensures r == ReadInterval(text, pos)
  {
    if At(text, pos) != '{' || !IsDigit(At(text, pos + 1)) { return NoInterval; }
    var lo, p := ScanDigits(text, pos + 1);
    var hi := lo;
    if At(text, p) == ',' {
      p := p + 1;
      if At(text, p) == '}' {
        hi := RE_INF;
      } else {
        if !IsDigit(At(text, p)) { return NoInterval; }
        hi, p := ScanDigits(text, p);
      }
    }
    if At(text, p) != '}' { return NoInterval; }
    if hi != RE_INF && hi < lo { return NoInterval; }
    return Interval(lo, hi, p + 1);
  }

  method ScanElement(text: CString, p: nat) returns (r: ParsedSet)
    requires p < |text|
    ensures r == Element(text, p)
  {
    hide FindClose, ClassMembers, Span;
    var c := At(text, p);
    if c == '[' && At(text, p + 1) in {':', '.', '='} {
      var kind := text[p + 1];
      var close := FindClose(text, p + 2, kind);
      if close.None? { return BadSet; }
      if kind == ':' {
        var named := ClassMembers(text[p + 2..close.value]);
        if named.None? { return BadSet; }
        return GoodSet(named.value, close.value + 2);
      }
      if close.value != p + 3 { return BadSet; }
      return GoodSet({text[p + 2]}, close.value + 2);
    }
    if At(text, p + 1) == '-' && At(text, p + 2) != NUL && At(text, p + 2) != ']' {
      var hi := text[p + 2];
      if hi < c { return BadSet; }
      return GoodSet(Span(c, hi), p + 3);
    }
    r := GoodSet({c}, p + 1);
  }

  /** The members of a bracket expression, gathered one element at a time. */
  method ScanMembers(text: CString, start: nat) returns (r: ParsedSet)
    requires start <= |text|
    ensures r == Members(text, {}, true, start)
  {
    hide Element;
    var work: set<char> := {};
    var first, p := true, start;
    while true
      invariant p <= |text|
      invariant Members(text, {}, true, start) == Members(text, work, first, p)
      decreases |text| - p
    {
      var c := At(text, p);
      if c == NUL { return BadSet; }
      if c == ']' && !first { return GoodSet(work, p); }
      first := false;
      var element := ScanElement(text, p);
      if element.BadSet? { return BadSet; }
      work := work + element.members;
      p := element.pos;
    }
  }

  class Parser {
    const src: Source
    var pos: nat
    var nodes: seq<Node>
    var sets: seq<set<char>>
    var bad: bool

    ghost predicate Valid()
      reads this
    {
      ArenaOk(nodes, |sets|) && pos <= |src.text|
    }

    constructor (src: Source)
      ensures Valid() && this.src == src && pos == 0 && nodes == [] && sets == [] && !bad
    {
      this.src := src;
      pos, nodes, sets, bad := 0, [], [], false;
    }

    /** Node `n` of the arena stands for `e`. */
    ghost predicate Stands(n: nat, e: Ere)
      reads this
    {
      Valid() && n < |nodes| && Tree(nodes, sets, n) == e
    }

    /** What every parse step promises: the arena only grows, and the step reads what the grammar says. */
    twostate predicate Reads(n: nat, r: Parsed)
      reads this
    {
      && Valid() && old(nodes) <= nodes && old(sets) <= sets
      && (match r
          case Bad => bad
          case Good(e, q) => !bad && pos == q && Stands(n, e))
    }

    method NewNode(node: Node) returns (n: nat)
      requires Valid() && NodeOk(nodes + [node], |sets|, |nodes|)
      modifies this`nodes
      ensures Valid() && n == |old(nodes)| && nodes == old(nodes) + [node]
      ensures forall m: nat, e: Ere :: old(Stands(m, e)) ==> Stands(m, e)
    {
      n := |nodes|;
      nodes := nodes + [node];
      assert forall m :: 0 <= m < |nodes| ==> NodeOk(nodes, |sets|, m) by {
        forall m | 0 <= m < |nodes| ensures NodeOk(nodes, |sets|, m) {
          if m < n { assert NodeOk(old(nodes), |sets|, m); }
        }
      }
      forall m: nat, e: Ere | old(Stands(m, e)) ensures Stands(m, e) {
        TreeSurvivesGrowth(old(nodes), sets, nodes, sets, m);
      }
    }

    method NewSet(members: set<char>) returns (i: nat)
      requires Valid()
      modifies this`sets
      ensures Valid() && i == |old(sets)| && sets == old(sets) + [members]
    {
      i := |sets|;
      sets := sets + [members];
      forall m | 0 <= m < |nodes| ensures NodeOk(nodes, |sets|, m) {
        assert NodeOk(nodes, |old(sets)|, m);
      }
    }

    method ParseAltern() returns (n: nat)
      requires Valid() && !bad
      modifies this`pos, this`nodes, this`sets, this`bad
      ensures Reads(n, ParseAlt(src, old(pos)))
      decreases |src.text| - pos, 6
    {
      n := ParseConcat();
      if bad { return; }
      ghost var e := Tree(nodes, sets, n);
      while At(src.text, pos) == '|'
        invariant Valid() && !bad && old(nodes) <= nodes && old(sets) <= sets
        invariant old(pos) <= pos && BoundsOk(e) && Stands(n, e)
        invariant ParseAlt(src, old(pos)) == ParseAltMore(src, e, pos)
        decreases |src.text| - pos
      {
        pos := pos + 1;
        ghost var from, nodes0, sets0 := pos, nodes, sets;
        var b := ParseConcat();
        if bad { return; }
        ghost var eb := Tree(nodes, sets, b);
        TreeBoundsOk(nodes, sets, b);
        TreeSurvivesGrowth(nodes0, sets0, nodes, sets, n);
        assert Stands(n, e) && Stands(b, eb);
        assert ParseCat(src, None, from) == Good(eb, pos);
        n := NewNode(NAlt(n, b));
        e := Alt(e, eb);
      }
    }

    method ParseConcat() returns (n: nat)
      requires Valid() && !bad
      modifies this`pos, this`nodes, this`sets, this`bad
      ensures Reads(n, ParseCat(src, None, old(pos)))
      decreases |src.text| - pos, 4
    {
      var some := false;
      n := 0;
      ghost var acc: Option<Ere> := None;
      while !EndsCat(At(src.text, pos))
        invariant Valid() && !bad && old(nodes) <= nodes && old(sets) <= sets
        invariant old(pos) <= pos && (some <==> acc.Some?)
        invariant acc.Some? ==> BoundsOk(acc.value) && Stands(n, acc.value)
        invariant ParseCat(src, None, old(pos)) == ParseCat(src, acc, pos)
        decreases |src.text| - pos
      {
        ghost var from, nodes0, sets0 := pos, nodes, sets;
        var r := ParseRepeat();
        if bad { return; }
        ghost var er := Tree(nodes, sets, r);
        TreeBoundsOk(nodes, sets, r);
        assert ParseRep(src, from) == Good(er, pos);
        if !some {
          n, some, acc := r, true, Some(er);
        } else {
          TreeSurvivesGrowth(nodes0, sets0, nodes, sets, n);
          assert Stands(n, acc.value) && Stands(r, er);
          n := NewNode(NCat(n, r));
          acc := Some(Cat(acc.value, er));
        }
      }
      if !some {
        n := NewNode(NEmpty);
      }
    }

    method ParseRepeat() returns (n: nat)
      requires Valid() && !bad
      modifies this`pos, this`nodes, this`sets, this`bad
      ensures Reads(n, ParseRep(src, old(pos)))
      decreases |src.text| - pos, 3
    {
      n := ParseOne();
      if bad { return; }
      ghost var e := Tree(nodes, sets, n);
      TreeBoundsOk(nodes, sets, n);
      while true
        invariant Valid() && !bad && old(nodes) <= nodes && old(sets) <= sets
        invariant old(pos) <= pos && BoundsOk(e) && Stands(n, e)
        invariant ParseRep(src, old(pos)) == ParseRepMore(src, e, pos)
        decreases |src.text| - pos
      {
        var c := At(src.text, pos);
        var lo, hi, q := 0, 0, pos;
        if c == '*' { lo, hi, q := 0, RE_INF, pos + 1; }
        else if c == '+' { lo, hi, q := 1, RE_INF, pos + 1; }
        else if c == '?' { lo, hi, q := 0, 1, pos + 1; }
        else {
          var interval := ScanInterval(src.text, pos);
          if interval.NoInterval? { return; }
          lo, hi, q := interval.lo, interval.hi, interval.pos;
        }
        assert Operator(src.text, pos) == Interval(lo, hi, q);
        assert Stands(n, e);
        n := NewNode(NRep(n, lo, hi));
        e := Rep(e, lo, hi);
        pos := q;
      }
    }

    /** Case folding comes before negation. */
    method ParseBracket() returns (i: nat)
      requires Valid() && !bad
      modifies this`pos, this`sets, this`bad
      ensures Valid()
      ensures match Bracket(src, old(pos))
              case BadSet => bad && sets == old(sets)
              case GoodSet(ms, q) => !bad && pos == q && i == |old(sets)| && sets == old(sets) + [ms]
    {
      i := 0;
      var negate := false;
      if At(src.text, pos) == '^' { negate := true; pos := pos + 1; }
      var r := ScanMembers(src.text, pos);
      if r.BadSet? { bad := true; return; }
      pos := r.pos + 1;
      var work := Folded(r.members, src.icase);
      if negate { work := Negated(work, src.newline); }
      i := NewSet(work);
    }

    method ParseOne() returns (n: nat)
      requires Valid() && !bad
      modifies this`pos, this`nodes, this`sets, this`bad
      ensures Reads(n, ParseAtom(src, old(pos)))
      decreases |src.text| - pos, 1
    {
      n := 0;
      match At(src.text, pos) {
        case '(' =>
          pos := pos + 1;
          n := ParseAltern();
          if bad { return; }
          if At(src.text, pos) != ')' { bad := true; return; }
          pos := pos + 1;
        case '[' =>
          pos := pos + 1;
          var i := ParseBracket();
          if bad { return; }
          n := NewNode(NSet(i));
        case '.' => pos := pos + 1; n := NewNode(NAny);
        case '^' => pos := pos + 1; n := NewNode(NBol);
        case '$' => pos := pos + 1; n := NewNode(NEol);
        case '\\' =>
          pos := pos + 1;
          if At(src.text, pos) == NUL { bad := true; return; }
          n := NewNode(NChar(src.text[pos]));
          pos := pos + 1;
        case c =>
          if c == ')' || c == NUL || c == '*' || c == '+' || c == '?' { bad := true; return; }
          n := NewNode(NChar(c));
          pos := pos + 1;
      }
    }
  }

  /** `re_compile`: a program for the tree the grammar gives the whole pattern, or nothing. */
  method Compile(text: CString, extended: bool, icase: bool, newline: bool) returns (r: Option<Prog>)
    ensures r.Some? <==> extended && ParsePattern(Source(text, icase, newline)).Some?
    ensures r.Some? ==> ProgOk(r.value) && r.value.icase == icase && r.value.newline == newline
    ensures r.Some? ==> Some(TreeOf(r.value)) == ParsePattern(Source(text, icase, newline))
  {
    if !extended { return None; }
    var ps := new Parser(Source(text, icase, newline));
    var root := ps.ParseAltern();
    if ps.bad || ps.pos < |text| { return None; }
    r := Some(Prog(ps.nodes, ps.sets, root, icase, newline));
  }
}
