/** The compiled form of a POSIX extended regular expression: a node arena, as
    `re_prog` lays it out, and the syntax tree the arena stands for. */
module RegexProgram {

  // Written for "no upper bound", and the range a bound is read in.
  const RE_INF: nat := 0xffff_ffff
  const UINT_RANGE: nat := 0x1_0000_0000

  /** A NUL-free byte string: what a C pattern or subject holds before its terminator. */
  predicate IsCString(s: string) {
    forall i :: 0 <= i < |s| ==> 0 < s[i] as int < 256
  }

  type CString = s: string | IsCString(s)

  /** Byte `i` of a C string, where the terminator reads as NUL. */
  function At(s: string, i: nat): char {
    if i < |s| then s[i] else '\0'
  }

  datatype Node =
    | NEmpty
    | NChar(ch: char)
    | NAny
    | NSet(set_: nat)
    | NBol
    | NEol
    | NCat(a: nat, b: nat)
    | NAlt(a: nat, b: nat)
    | NRep(a: nat, lo: nat, hi: nat)

  datatype Prog = Prog(nodes: seq<Node>, sets: seq<set<char>>, root: nat, icase: bool, newline: bool)

  datatype Ere =
    | Empty
    | Lit(c: char)
    | Any
    | OneOf(members: set<char>)
    | Bol
    | Eol
    | Cat(l: Ere, r: Ere)
    | Alt(l: Ere, r: Ere)
    | Rep(body: Ere, lo: nat, hi: nat)

  predicate WithinHi(n: nat, hi: nat) {
    hi == RE_INF || n <= hi
  }

  predicate BelowHi(n: nat, hi: nat) {
    hi == RE_INF || n < hi
  }

  /** Every node points only at earlier nodes and at sets that exist, and no
      repetition has its bounds crossed. */
  predicate NodeOk(nodes: seq<Node>, nset: nat, n: nat)
    requires n < |nodes|
  {
    match nodes[n]
    case NSet(s) => s < nset
    case NCat(a, b) => a < n && b < n
    case NAlt(a, b) => a < n && b < n
    case NRep(a, lo, hi) => a < n && WithinHi(lo, hi)
    case _ => true
  }

  predicate ArenaOk(nodes: seq<Node>, nset: nat) {
    forall n :: 0 <= n < |nodes| ==> NodeOk(nodes, nset, n)
  }

  predicate ProgOk(p: Prog) {
    ArenaOk(p.nodes, |p.sets|) && p.root < |p.nodes|
  }

  /** The syntax tree below node `n`. */
  function Tree(nodes: seq<Node>, sets: seq<set<char>>, n: nat): Ere
    requires ArenaOk(nodes, |sets|) && n < |nodes|
    decreases n
  {
    assert NodeOk(nodes, |sets|, n);
    match nodes[n]
    case NEmpty => Empty
    case NChar(c) => Lit(c)
    case NAny => Any
    case NSet(s) => OneOf(sets[s])
    case NBol => Bol
    case NEol => Eol
    case NCat(a, b) => Cat(Tree(nodes, sets, a), Tree(nodes, sets, b))
    case NAlt(a, b) => Alt(Tree(nodes, sets, a), Tree(nodes, sets, b))
    case NRep(a, lo, hi) => Rep(Tree(nodes, sets, a), lo, hi)
  }

  function TreeOf(p: Prog): Ere
    requires ProgOk(p)
  {
    Tree(p.nodes, p.sets, p.root)
  }

  /** The bounds of every repetition are in order. */
  predicate BoundsOk(e: Ere) {
    match e
    case Cat(l, r) => BoundsOk(l) && BoundsOk(r)
    case Alt(l, r) => BoundsOk(l) && BoundsOk(r)
    case Rep(b, lo, hi) => BoundsOk(b) && WithinHi(lo, hi)
    case _ => true
  }

  lemma {:induction false} TreeBoundsOk(nodes: seq<Node>, sets: seq<set<char>>, n: nat)
    requires ArenaOk(nodes, |sets|) && n < |nodes|
    ensures BoundsOk(Tree(nodes, sets, n))
    decreases n
  {
    assert NodeOk(nodes, |sets|, n);
    match nodes[n]
    case NCat(a, b) => TreeBoundsOk(nodes, sets, a); TreeBoundsOk(nodes, sets, b);
    case NAlt(a, b) => TreeBoundsOk(nodes, sets, a); TreeBoundsOk(nodes, sets, b);
    case NRep(a, _, _) => TreeBoundsOk(nodes, sets, a);
    case _ =>
  }

  /** Growing the arena never disturbs the tree of a node already in it. */
  lemma {:induction false} TreeSurvivesGrowth(nodes: seq<Node>, sets: seq<set<char>>,
                                               nodes': seq<Node>, sets': seq<set<char>>, n: nat)
    requires ArenaOk(nodes, |sets|) && ArenaOk(nodes', |sets'|) && n < |nodes|
    requires nodes <= nodes' && sets <= sets'
    ensures Tree(nodes', sets', n) == Tree(nodes, sets, n)
    decreases n
  {
    assert NodeOk(nodes, |sets|, n);
    assert nodes'[n] == nodes[n];
    match nodes[n]
    case NCat(a, b) =>
      TreeSurvivesGrowth(nodes, sets, nodes', sets', a);
      TreeSurvivesGrowth(nodes, sets, nodes', sets', b);
    case NAlt(a, b) =>
      TreeSurvivesGrowth(nodes, sets, nodes', sets', a);
      TreeSurvivesGrowth(nodes, sets, nodes', sets', b);
    case NRep(a, _, _) =>
      TreeSurvivesGrowth(nodes, sets, nodes', sets', a);
    case _ =>
  }
}
