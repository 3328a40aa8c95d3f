/** What a pattern means, said of its text: the repetition operators, the one-character atoms,
    groups, concatenation and alternation, each in terms of the stretches its parts denote. */
module RegexReading {
  import opened Characters
  import opened Wrappers
  import opened RegexProgram
  import opened RegexGrammar
  import opened RegexMeaning
  import opened RegexPrinter

  // ----- consecutive stretches

  /** The stretch from `i` to `j`, cut at `cuts` into stretches `e` denotes. */
  ghost predicate CutInto(e: Ere, env: Env, i: nat, j: nat, cuts: seq<nat>) {
    && |cuts| > 0 && cuts[0] == i && cuts[|cuts| - 1] == j
    && forall k :: 0 <= k < |cuts| - 1 ==> Matches(e, env, cuts[k], cuts[k + 1])
  }

  lemma {:induction false} CutsOfIterations(e: Ere, n: nat, env: Env, i: nat, j: nat) returns (cuts: seq<nat>)
    requires Iterates(e, n, env, i, j)
    ensures |cuts| == n + 1 && CutInto(e, env, i, j, cuts)
    decreases n
  {
    if n == 0 {
      cuts := [i];
    } else {
      var m: nat :| i <= m <= j && Matches(e, env, i, m) && Iterates(e, n - 1, env, m, j);
      var rest := CutsOfIterations(e, n - 1, env, m, j);
      cuts := [i] + rest;
    }
  }

  lemma {:induction false} IterationsOfCuts(e: Ere, env: Env, i: nat, j: nat, cuts: seq<nat>)
    requires CutInto(e, env, i, j, cuts)
    ensures Iterates(e, |cuts| - 1, env, i, j)
    decreases |cuts|
  {
    if |cuts| > 1 {
      var rest := cuts[1..];
      assert Matches(e, env, cuts[0], cuts[1]);
      forall k | 0 <= k < |rest| - 1 ensures Matches(e, env, rest[k], rest[k + 1]) {
        assert Matches(e, env, cuts[k + 1], cuts[k + 1 + 1]);
      }
      IterationsOfCuts(e, env, cuts[1], j, rest);
      MatchesForward(e, env, i, cuts[1]);
      IteratesForward(e, |rest| - 1, env, cuts[1], j);
    }
  }

  // ----- repetition operators

  /** A repetition operator as it is written; bounds are runs of digits. */
  datatype Repeat = Star | Plus | Quest | Exactly(d: string) | AtLeast(d: string) | FromTo(d: string, u: string)

  function Written(op: Repeat): string {
    match op
    case Star => "*"
    case Plus => "+"
    case Quest => "?"
    case Exactly(d) => "{" + d + "}"
    case AtLeast(d) => "{" + d + ",}"
    case FromTo(d, u) => "{" + d + "," + u + "}"
  }

  predicate Numeral(d: string) {
    d != "" && AllDigits(d)
  }

  /** What a bound comes to: the digits' number, held in 32 bits. */
  function Bound(d: string): (n: nat)
    requires Numeral(d)
    ensures n < UINT_RANGE
  {
    Value(d, 0) % UINT_RANGE
  }

  predicate Legal(op: Repeat) {
    match op
    case Exactly(d) => Numeral(d)
    case AtLeast(d) => Numeral(d)
    case FromTo(d, u) => Numeral(d) && Numeral(u) && (Bound(d) <= Bound(u) || Bound(u) == 0xffff_ffff)
    case _ => true
  }

  /** May the operator repeat its atom `n` times?  The largest bound stands for none at all. */
  predicate Allows(op: Repeat, n: nat)
    requires Legal(op)
  {
    match op
    case Star => true
    case Plus => n >= 1
    case Quest => n <= 1
    case Exactly(d) => n == Bound(d) || (n > Bound(d) && Bound(d) == 0xffff_ffff)
    case AtLeast(d) => n >= Bound(d)
    case FromTo(d, u) => n >= Bound(d) && (n <= Bound(u) || Bound(u) == 0xffff_ffff)
  }

  lemma Carry(n: nat, x: nat)
    ensures (n % UINT_RANGE * 10 + x) % UINT_RANGE == (n * 10 + x) % UINT_RANGE
  {
    var q, r := n / UINT_RANGE, n % UINT_RANGE;
    assert n * 10 + x == (r * 10 + x) + q * 10 * UINT_RANGE;
    Multiples(r * 10 + x, q * 10);
  }

  lemma {:induction false} Multiples(a: nat, k: nat)
    ensures (a + k * UINT_RANGE) % UINT_RANGE == a % UINT_RANGE
  {
    if k > 0 {
      Multiples(a, k - 1);
      assert a + k * UINT_RANGE == a + (k - 1) * UINT_RANGE + UINT_RANGE;
    }
  }

  lemma OneDigit(text: CString, p: nat, n: nat)
    requires IsDigit(At(text, p))
    ensures var x := At(text, p) as int - '0' as int;
      x >= 0 && Digits(text, p, n % UINT_RANGE) == Digits(text, p + 1, (n * 10 + x) % UINT_RANGE)
  {
    Carry(n, At(text, p) as int - '0' as int);
  }

  lemma {:induction false} DigitsReadModulo(text: CString, p: nat, d: string, n: nat)
    requires AllDigits(d) && Holds(text, p, d) && !IsDigit(At(text, p + |d|))
    ensures Digits(text, p, n % UINT_RANGE) == (Value(d, n) % UINT_RANGE, p + |d|)
    decreases |d|
  {
    if d != "" {
      HoldsAt(text, p, d, 0);
      HoldsTail(text, p, d);
      ValueFront(d, n);
      OneDigit(text, p, n);
      hide Holds, At, Value, Digits;
      DigitsReadModulo(text, p + 1, d[1..], n * 10 + (d[0] as int - '0' as int));
    }
  }

  lemma BoundRead(text: CString, p: nat, d: string)
    requires Numeral(d) && Holds(text, p, d) && !IsDigit(At(text, p + |d|))
    ensures IsDigit(At(text, p)) && Digits(text, p, 0) == (Bound(d), p + |d|)
  {
    HoldsAt(text, p, d, 0);
    DigitsReadModulo(text, p, d, 0);
  }

  /** A run of digits is what the reader of digits goes over. */
  lemma {:induction false} RunRead(text: CString, p: nat, n: nat) returns (d: string)
    requires n < UINT_RANGE && p <= |text|
    ensures AllDigits(d) && Holds(text, p, d) && Digits(text, p, n).1 == p + |d|
    ensures !IsDigit(At(text, p + |d|)) && (IsDigit(At(text, p)) ==> d != "")
    decreases |text| - p
  {
    if IsDigit(At(text, p)) {
      var rest := RunRead(text, p + 1, (n * 10 + (At(text, p) as int - '0' as int)) % UINT_RANGE);
      d := [text[p]] + rest;
      forall i | 0 <= i < |d| ensures text[p + i] == d[i] && IsDigit(d[i]) {
        if i > 0 { HoldsAt(text, p + 1, rest, i - 1); }
      }
    } else {
      d := "";
    }
  }

  lemma BoundedParts(text: string, p: nat, d: string, tail: string)
    requires Holds(text, p, "{" + d + tail)
    ensures At(text, p) == '{' && Holds(text, p + 1, d) && Holds(text, p + 1 + |d|, tail)
  {
    HoldsParts(text, p, "{" + d, tail);
    HoldsParts(text, p, "{", d);
    HoldsAt(text, p, "{", 0);
  }

  lemma ExactIntervalRead(text: CString, p: nat, n: nat, q: nat)
    requires At(text, p) == '{' && IsDigit(At(text, p + 1)) && Digits(text, p + 1, 0) == (n, q)
    requires At(text, q) == '}'
    ensures ReadInterval(text, p) == Interval(n, n, q + 1)
  {
  }

  lemma BraceOperates(text: CString, p: nat)
    requires At(text, p) == '{'
    ensures Operator(text, p) == ReadInterval(text, p)
  {
  }

  predicate Reads(text: CString, p: nat, op: Repeat, lo: nat, hi: nat)
    requires Legal(op)
  {
    Operator(text, p) == Interval(lo, hi, p + |Written(op)|)
  }

  ghost predicate LetsIn(op: Repeat, lo: nat, hi: nat)
    requires Legal(op)
  {
    forall n: nat :: lo <= n && WithinHi(n, hi) <==> Allows(op, n)
  }

  /** A legal operator standing at `p` is read, with bounds that let in the counts it allows. */
  lemma WrittenIsRead(text: CString, p: nat, op: Repeat) returns (lo: nat, hi: nat)
    requires Legal(op) && Holds(text, p, Written(op))
    ensures Reads(text, p, op, lo, hi) && LetsIn(op, lo, hi)
  {
    match op
    case Star => HoldsAt(text, p, "*", 0); lo, hi := 0, RE_INF;
    case Plus => HoldsAt(text, p, "+", 0); lo, hi := 1, RE_INF;
    case Quest => HoldsAt(text, p, "?", 0); lo, hi := 0, 1;
    case Exactly(d) => ExactlyIsRead(text, p, d); lo, hi := Bound(d), Bound(d);
    case AtLeast(d) => AtLeastIsRead(text, p, d); lo, hi := Bound(d), RE_INF;
    case FromTo(d, u) => FromToIsRead(text, p, d, u); lo, hi := Bound(d), Bound(u);
  }

  lemma ExactlyIsRead(text: CString, p: nat, d: string)
    requires Numeral(d) && Holds(text, p, Written(Exactly(d)))
    ensures Reads(text, p, Exactly(d), Bound(d), Bound(d))
  {
    BoundedParts(text, p, d, "}");
    HoldsAt(text, p + 1 + |d|, "}", 0);
    hide Holds, Digits, Bound, ReadInterval, Operator, AllDigits, At;
    BraceOperates(text, p);
    BoundRead(text, p + 1, d);
    ExactIntervalRead(text, p, Bound(d), p + 1 + |d|);
  }

  lemma AtLeastIsRead(text: CString, p: nat, d: string)
    requires Numeral(d) && Holds(text, p, Written(AtLeast(d)))
    ensures Reads(text, p, AtLeast(d), Bound(d), RE_INF)
  {
    BoundedParts(text, p, d, ",}");
    HoldsAt(text, p + 1 + |d|, ",}", 0);
    HoldsAt(text, p + 1 + |d|, ",}", 1);
    hide Holds, Digits, Bound, ReadInterval, Operator, AllDigits, At;
    BraceOperates(text, p);
    BoundRead(text, p + 1, d);
    OpenIntervalRead(text, p, Bound(d), p + 1 + |d|);
  }

  lemma FromToIsRead(text: CString, p: nat, d: string, u: string)
    requires Numeral(d) && Numeral(u) && WithinHi(Bound(d), Bound(u)) && Holds(text, p, Written(FromTo(d, u)))
    ensures Reads(text, p, FromTo(d, u), Bound(d), Bound(u))
  {
    BracedParts(text, p, d, u);
    hide Holds, Digits, Bound, ReadInterval, Operator, AllDigits, At;
    BraceOperates(text, p);
    BoundRead(text, p + 1, d);
    BoundRead(text, p + 2 + |d|, u);
    ClosedIntervalRead(text, p, Bound(d), p + 1 + |d|, Bound(u), p + 2 + |d| + |u|);
  }

  ghost predicate Repeats(text: string, p: nat) {
    exists op :: Legal(op) && Holds(text, p, Written(op))
  }

  lemma IntervalIsWritten(text: CString, p: nat)
    requires ReadInterval(text, p).Interval?
    ensures Repeats(text, p)
  {
    var d := RunRead(text, p + 1, 0);
    var q := p + 1 + |d|;
    if At(text, q) == '}' {
      hide ReadInterval, Digits;
      ExactStands(text, p, d);
    } else if At(text, q + 1) == '}' {
      LeastStands(text, p, d);
    } else {
      hide Holds, AllDigits, Repeats;
      var u := RunRead(text, q + 1, 0);
      BoundRead(text, p + 1, d);
      BoundRead(text, q + 1, u);
      RangeStands(text, p, d, u);
    }
  }

  lemma ExactStands(text: CString, p: nat, d: string)
    requires Numeral(d) && At(text, p) == '{' && Holds(text, p + 1, d) && At(text, p + 1 + |d|) == '}'
    ensures Repeats(text, p)
  {
    assert Holds(text, p, Written(Exactly(d)));
    assert Legal(Exactly(d));
  }

  lemma LeastStands(text: CString, p: nat, d: string)
    requires Numeral(d) && At(text, p) == '{' && Holds(text, p + 1, d)
    requires At(text, p + 1 + |d|) == ',' && At(text, p + 2 + |d|) == '}'
    ensures Repeats(text, p)
  {
    assert Holds(text, p, Written(AtLeast(d)));
    assert Legal(AtLeast(d));
  }

  lemma RangeStands(text: CString, p: nat, d: string, u: string)
    requires At(text, p) == '{' && Holds(text, p + 1, d) && At(text, p + 1 + |d|) == ','
    requires Holds(text, p + 2 + |d|, u) && At(text, p + 2 + |d| + |u|) == '}'
    requires Numeral(d) && Numeral(u) && WithinHi(Bound(d), Bound(u))
    ensures Repeats(text, p)
  {
    assert Legal(FromTo(d, u));
    var w := Written(FromTo(d, u));
    forall k | 0 <= k < |w| ensures text[p + k] == w[k] {
      if 1 <= k < 1 + |d| {
        HoldsAt(text, p + 1, d, k - 1);
      } else if 2 + |d| <= k < 2 + |d| + |u| {
        HoldsAt(text, p + 2 + |d|, u, k - 2 - |d|);
      }
    }
  }

  /** An operator is read exactly where one is written. */
  lemma OperatorIffWritten(text: CString, p: nat)
    ensures Operator(text, p).Interval? <==> Repeats(text, p)
  {
    if Repeats(text, p) {
      var op :| Legal(op) && Holds(text, p, Written(op));
      var lo, hi := WrittenIsRead(text, p, op);
    }
    match At(text, p)
    case '*' => assert Holds(text, p, Written(Star));
    case '+' => assert Holds(text, p, Written(Plus));
    case '?' => assert Holds(text, p, Written(Quest));
    case _ => if ReadInterval(text, p).Interval? { IntervalIsWritten(text, p); }
  }

  // ----- an atom and the operators after it

  predicate AllLegal(ops: seq<Repeat>) {
    forall k :: 0 <= k < |ops| ==> Legal(ops[k])
  }

  function AllWritten(ops: seq<Repeat>): string {
    if ops == [] then "" else Written(ops[0]) + AllWritten(ops[1..])
  }

  /** The stretches of an expression that denotes those of `e`, with `ops` written after it: each
      operator allows so many consecutive stretches of what stands before it. */
  ghost predicate Repeated(e: Ere, ops: seq<Repeat>, env: Env, i: nat, j: nat)
    requires AllLegal(ops)
    decreases |ops|, 0
  {
    if ops == [] then Matches(e, env, i, j)
    else exists cuts: seq<nat> :: RepeatedAlong(e, ops, env, i, j, cuts)
  }

  ghost predicate RepeatedAlong(e: Ere, ops: seq<Repeat>, env: Env, i: nat, j: nat, cuts: seq<nat>)
    requires AllLegal(ops) && ops != []
    decreases |ops| - 1, 1
  {
    && |cuts| > 0 && cuts[0] == i && cuts[|cuts| - 1] == j
    && Allows(ops[|ops| - 1], |cuts| - 1)
    && forall k :: 0 <= k < |cuts| - 1 ==> Repeated(e, ops[..|ops| - 1], env, cuts[k], cuts[k + 1])
  }

  ghost predicate Means(f: Ere, e: Ere, ops: seq<Repeat>, env: Env)
    requires AllLegal(ops)
  {
    forall i: nat, j: nat :: Matches(f, env, i, j) <==> Repeated(e, ops, env, i, j)
  }

  /** Cut into stretches of `e` with `ops` after it, one by one. */
  lemma EachStretch(f: Ere, e: Ere, ops: seq<Repeat>, env: Env, cuts: seq<nat>)
    requires AllLegal(ops) && Means(f, e, ops, env)
    ensures (forall k :: 0 <= k < |cuts| - 1 ==> Repeated(e, ops, env, cuts[k], cuts[k + 1]))
       <==> (forall k :: 0 <= k < |cuts| - 1 ==> Matches(f, env, cuts[k], cuts[k + 1]))
  {
    hide Matches, Repeated;
    if forall k :: 0 <= k < |cuts| - 1 ==> Matches(f, env, cuts[k], cuts[k + 1]) {
      forall k | 0 <= k < |cuts| - 1 ensures Repeated(e, ops, env, cuts[k], cuts[k + 1]) {
        assert Matches(f, env, cuts[k], cuts[k + 1]);
      }
    } else if forall k :: 0 <= k < |cuts| - 1 ==> Repeated(e, ops, env, cuts[k], cuts[k + 1]) {
      forall k | 0 <= k < |cuts| - 1 ensures Matches(f, env, cuts[k], cuts[k + 1]) {
        assert Repeated(e, ops, env, cuts[k], cuts[k + 1]);
      }
    }
  }

  lemma Along(f: Ere, e: Ere, ops: seq<Repeat>, op: Repeat, env: Env, i: nat, j: nat, cuts: seq<nat>)
    requires AllLegal(ops) && AllLegal(ops + [op]) && Legal(op) && Means(f, e, ops, env)
    ensures RepeatedAlong(e, ops + [op], env, i, j, cuts) <==> CutInto(f, env, i, j, cuts) && Allows(op, |cuts| - 1)
  {
    var more := ops + [op];
    assert more[..|more| - 1] == ops && more[|more| - 1] == op;
    hide Matches, Repeated, Allows, Legal, AllLegal, Means;
    EachStretch(f, e, ops, env, cuts);
  }

  lemma CutsOfRepeated(e: Ere, ops: seq<Repeat>, env: Env, i: nat, j: nat) returns (cuts: seq<nat>)
    requires AllLegal(ops) && ops != [] && Repeated(e, ops, env, i, j)
    ensures RepeatedAlong(e, ops, env, i, j, cuts)
  {
    cuts :| RepeatedAlong(e, ops, env, i, j, cuts);
  }

  lemma RepeatedOnceMore(f: Ere, e: Ere, ops: seq<Repeat>, op: Repeat, lo: nat, hi: nat, env: Env)
    requires AllLegal(ops) && Legal(op) && Means(f, e, ops, env)
    requires LetsIn(op, lo, hi)
    ensures AllLegal(ops + [op]) && Means(Rep(f, lo, hi), e, ops + [op], env)
  {
    forall i: nat, j: nat ensures Matches(Rep(f, lo, hi), env, i, j) <==> Repeated(e, ops + [op], env, i, j) {
      if Matches(Rep(f, lo, hi), env, i, j) {
        var n: nat :| lo <= n && WithinHi(n, hi) && Iterates(f, n, env, i, j);
        hide Matches, Iterates, RepeatedAlong, CutInto;
        var cuts := CutsOfIterations(f, n, env, i, j);
        Along(f, e, ops, op, env, i, j, cuts);
      }
      if Repeated(e, ops + [op], env, i, j) {
        var cuts := CutsOfRepeated(e, ops + [op], env, i, j);
        Along(f, e, ops, op, env, i, j, cuts);
        hide RepeatedAlong, Repeated;
        IterationsOfCuts(f, env, i, j, cuts);
      }
    }
  }

  lemma MoreRead(src: Source, acc: Ere, lo: nat, hi: nat, p: nat, q: nat)
    requires p <= |src.text| && BoundsOk(acc) && Operator(src.text, p) == Interval(lo, hi, q)
    ensures p < q <= |src.text| && BoundsOk(Rep(acc, lo, hi))
    ensures ParseRepMore(src, acc, p) == ParseRepMore(src, Rep(acc, lo, hi), q)
  {
  }

  lemma {:induction false} OperatorsRead(src: Source, acc: Ere, e: Ere, past: seq<Repeat>, ops: seq<Repeat>, p: nat, env: Env)
    requires p <= |src.text| && BoundsOk(acc) && AllLegal(past) && AllLegal(ops) && Means(acc, e, past, env)
    requires Holds(src.text, p, AllWritten(ops)) && !Repeats(src.text, p + |AllWritten(ops)|)
    ensures ParseRepMore(src, acc, p).pos == p + |AllWritten(ops)|
    ensures AllLegal(past + ops) && Means(ParseRepMore(src, acc, p).e, e, past + ops, env)
    decreases |ops|
  {
    hide Means, Matches, Repeated, BoundsOk, Holds, LetsIn, Legal, Written;
    if ops == [] {
      OperatorIffWritten(src.text, p);
      assert past + ops == past;
    } else {
      hide Repeats, Operator, ParseRepMore;
      HoldsParts(src.text, p, Written(ops[0]), AllWritten(ops[1..]));
      var lo, hi := WrittenIsRead(src.text, p, ops[0]);
      var q := p + |Written(ops[0])|;
      RepeatedOnceMore(acc, e, past, ops[0], lo, hi, env);
      MoreRead(src, acc, lo, hi, p, q);
      OperatorsRead(src, Rep(acc, lo, hi), e, past + [ops[0]], ops[1..], q, env);
      assert past + [ops[0]] + ops[1..] == past + ops;
    }
  }

  /** An atom, all the operators written after it and no more: what they denote together. */
  lemma RepeatedAtom(src: Source, p: nat, ops: seq<Repeat>, env: Env, i: nat, j: nat)
    requires p <= |src.text| && ParseAtom(src, p).Good? && AllLegal(ops)
    requires Holds(src.text, ParseAtom(src, p).pos, AllWritten(ops))
    requires !Repeats(src.text, ParseAtom(src, p).pos + |AllWritten(ops)|)
    ensures ParseRep(src, p).Good? && ParseRep(src, p).pos == ParseAtom(src, p).pos + |AllWritten(ops)|
    ensures Matches(ParseRep(src, p).e, env, i, j) <==> Repeated(ParseAtom(src, p).e, ops, env, i, j)
  {
    hide Matches, Holds, Repeats, Legal, BoundsOk, ParseAtom, ParseRepMore;
    var e := ParseAtom(src, p).e;
    assert Means(e, e, [], env);
    OperatorsRead(src, e, e, [], ops, ParseAtom(src, p).pos, env);
    assert [] + ops == ops;
  }

  // ----- atoms

  /** The same letter in its two cases. */
  predicate OtherCase(a: char, b: char) {
    exists k :: 0 <= k < 26 && LetterPair(a, b, k)
  }

  predicate LetterPair(a: char, b: char, k: int) {
    || (a as int == 'a' as int + k && b as int == 'A' as int + k)
    || (a as int == 'A' as int + k && b as int == 'a' as int + k)
  }

  lemma OtherCaseIsFold(a: char, b: char)
    ensures a != b && ToLower(a) == ToLower(b) <==> OtherCase(a, b)
  {
    if a != b && ToLower(a) == ToLower(b) {
      var k := ToLower(a) as int - 'a' as int;
      assert LetterPair(a, b, k);
    }
  }

  /** A byte as the pattern's flags see it. */
  predicate Alike(env: Env, a: char, b: char) {
    a == b || (env.icase && OtherCase(a, b))
  }

  predicate Ordinary(c: char) {
    c != NUL && c !in "()[.^$*+?|\\"
  }

  predicate OneLike(c: char, env: Env, i: nat, j: nat) {
    j == i + 1 && i < |env.subject| && Alike(env, env.subject[i], c)
  }

  lemma OneLikeIsLit(c: char, env: Env, i: nat, j: nat)
    ensures Matches(Lit(c), env, i, j) <==> OneLike(c, env, i, j)
  {
    if i < |env.subject| { OtherCaseIsFold(env.subject[i], c); }
  }

  /** An ordinary character asks for one byte like it, */
  lemma CharacterAtom(src: Source, p: nat, env: Env, i: nat, j: nat)
    requires p < |src.text| && Ordinary(src.text[p])
    ensures ParseAtom(src, p).Good? && ParseAtom(src, p).pos == p + 1
    ensures Matches(ParseAtom(src, p).e, env, i, j) <==> OneLike(src.text[p], env, i, j)
  {
    OneLikeIsLit(src.text[p], env, i, j);
    hide Matches;
  }

  /** and so does any character after a backslash. */
  lemma QuotedAtom(src: Source, p: nat, env: Env, i: nat, j: nat)
    requires p + 1 < |src.text| && src.text[p] == '\\'
    ensures ParseAtom(src, p).Good? && ParseAtom(src, p).pos == p + 2
    ensures Matches(ParseAtom(src, p).e, env, i, j) <==> OneLike(src.text[p + 1], env, i, j)
  {
    OneLikeIsLit(src.text[p + 1], env, i, j);
    hide Matches;
  }

  lemma AnyAtom(src: Source, p: nat, env: Env, i: nat, j: nat)
    requires p < |src.text| && src.text[p] == '.'
    ensures ParseAtom(src, p).Good? && ParseAtom(src, p).pos == p + 1
    ensures Matches(ParseAtom(src, p).e, env, i, j)
       <==> (j == i + 1 && i < |env.subject| && !(env.newline && env.subject[i] == '\n'))
  {
  }

  lemma LineStartAtom(src: Source, p: nat, env: Env, i: nat, j: nat)
    requires p < |src.text| && src.text[p] == '^'
    ensures ParseAtom(src, p).Good? && ParseAtom(src, p).pos == p + 1
    ensures Matches(ParseAtom(src, p).e, env, i, j)
       <==> (j == i && (i == 0 || (env.newline && i <= |env.subject| && env.subject[i - 1] == '\n')))
  {
  }

  lemma LineEndAtom(src: Source, p: nat, env: Env, i: nat, j: nat)
    requires p < |src.text| && src.text[p] == '$'
    ensures ParseAtom(src, p).Good? && ParseAtom(src, p).pos == p + 1
    ensures Matches(ParseAtom(src, p).e, env, i, j)
       <==> (j == i && (i >= |env.subject| || (env.newline && env.subject[i] == '\n')))
  {
  }

  /** Where no atom can begin. */
  lemma NoAtom(src: Source, p: nat)
    requires p <= |src.text|
    requires p == |src.text| || src.text[p] in "*+?)" || (src.text[p] == '\\' && p + 1 == |src.text|)
    ensures ParseAtom(src, p) == Bad
  {
  }

  /** A group is what it holds, up to the parenthesis that closes it. */
  lemma GroupAtom(src: Source, p: nat)
    requires p < |src.text| && src.text[p] == '('
    ensures var inner, r := ParseAlt(src, p + 1), ParseAtom(src, p);
      && (inner.Good? && inner.pos < |src.text| && src.text[inner.pos] == ')' <==> r.Good?)
      && (r.Good? ==> r.e == inner.e && r.pos == inner.pos + 1)
  {
  }

  // ----- one after the other, and one or the other

  /** What a successful parse denotes. */
  ghost predicate Gives(r: Parsed, env: Env, i: nat, j: nat) {
    r.Good? && Matches(r.e, env, i, j)
  }

  /** The repeated atoms from `ps[0]` on follow one another, each beginning where the one before ends. */
  predicate PiecesAt(src: Source, ps: seq<nat>) {
    && |ps| > 0
    && (forall k :: 0 <= k < |ps| ==> ps[k] <= |src.text|)
    && (forall k :: 0 <= k < |ps| - 1 ==> PieceAt(src, ps[k], ps[k + 1]))
  }

  predicate PieceAt(src: Source, p: nat, q: nat)
    requires p <= |src.text|
  {
    !Closes(src.text, p) && ParseRep(src, p).Good? && ParseRep(src, p).pos == q
  }

  /** A concatenation ends at a bar, at a closing parenthesis or with the pattern. */
  predicate Closes(text: string, p: nat) {
    p >= |text| || text[p] == '|' || text[p] == ')'
  }

  /** The stretch from `i` to `j` is cut into one stretch for each piece. */
  ghost predicate OneAfterAnother(src: Source, ps: seq<nat>, env: Env, i: nat, j: nat)
    requires PiecesAt(src, ps)
  {
    exists cuts: seq<nat> :: PieceByPiece(src, ps, env, i, j, cuts)
  }

  ghost predicate PieceByPiece(src: Source, ps: seq<nat>, env: Env, i: nat, j: nat, cuts: seq<nat>)
    requires PiecesAt(src, ps)
  {
    && |cuts| == |ps| && cuts[0] == i && cuts[|ps| - 1] == j
    && forall k :: 0 <= k < |ps| - 1 ==> Gives(ParseRep(src, ps[k]), env, cuts[k], cuts[k + 1])
  }

  /** `acc` is what has been read of a concatenation whose pieces so far begin at `ps`. */
  ghost predicate Joined(src: Source, acc: Option<Ere>, ps: seq<nat>, env: Env)
    requires PiecesAt(src, ps)
  {
    && (acc.None? <==> |ps| == 1)
    && forall i: nat, j: nat ::
         OneAfterAnother(src, ps, env, i, j) <==> (if acc.Some? then Matches(acc.value, env, i, j) else i == j)
  }

  lemma OnePieceMore(src: Source, ps: seq<nat>, q: nat, env: Env, i: nat, j: nat)
    requires PiecesAt(src, ps) && PiecesAt(src, ps + [q])
    ensures OneAfterAnother(src, ps + [q], env, i, j) <==>
            exists m: nat :: OneAfterAnother(src, ps, env, i, m) && Gives(ParseRep(src, ps[|ps| - 1]), env, m, j)
  {
    hide Gives;
    var more, r := ps + [q], ParseRep(src, ps[|ps| - 1]);
    if OneAfterAnother(src, more, env, i, j) {
      var cuts: seq<nat> :| PieceByPiece(src, more, env, i, j, cuts);
      var m := cuts[|ps| - 1];
      assert Gives(ParseRep(src, more[|ps| - 1]), env, m, cuts[|ps| - 1 + 1]);
      assert forall k :: 0 <= k < |ps| - 1 ==> more[k] == ps[k];
      assert PieceByPiece(src, ps, env, i, m, cuts[..|ps|]);
    }
    if m: nat :| OneAfterAnother(src, ps, env, i, m) && Gives(r, env, m, j) {
      var cuts: seq<nat> :| PieceByPiece(src, ps, env, i, m, cuts);
      assert PieceByPiece(src, more, env, i, j, cuts + [j]);
    }
  }

  lemma JoinedMore(src: Source, acc: Option<Ere>, ps: seq<nat>, e: Ere, q: nat, env: Env)
    requires PiecesAt(src, ps) && PiecesAt(src, ps + [q]) && Joined(src, acc, ps, env)
    requires ParseRep(src, ps[|ps| - 1]) == Good(e, q)
    ensures Joined(src, Some(if acc.Some? then Cat(acc.value, e) else e), ps + [q], env)
  {
    var r := ParseRep(src, ps[|ps| - 1]);
    var f := if acc.Some? then Cat(acc.value, e) else e;
    forall i: nat, j: nat ensures OneAfterAnother(src, ps + [q], env, i, j) <==> Matches(f, env, i, j) {
      OnePieceMore(src, ps, q, env, i, j);
      hide OneAfterAnother;
      forall m: nat | OneAfterAnother(src, ps, env, i, m) && Gives(r, env, m, j) ensures i <= m <= j {
        MatchesForward(e, env, m, j);
        if acc.Some? { MatchesForward(acc.value, env, i, m); }
      }
      if acc.None? {
        assert OneAfterAnother(src, ps, env, i, i);
      }
    }
  }

  lemma {:induction false} PiecesRead(src: Source, acc: Option<Ere>, past: seq<nat>, ps: seq<nat>, env: Env)
    requires PiecesAt(src, past) && PiecesAt(src, ps) && past[|past| - 1] == ps[0] && PiecesAt(src, past + ps[1..])
    requires (acc.Some? ==> BoundsOk(acc.value)) && Joined(src, acc, past, env) && Closes(src.text, ps[|ps| - 1])
    ensures var r := ParseCat(src, acc, ps[0]);
      && r.Good? && r.pos == ps[|ps| - 1]
      && forall i: nat, j: nat :: Matches(r.e, env, i, j) <==> OneAfterAnother(src, past + ps[1..], env, i, j)
    decreases |ps|
  {
    hide Matches, BoundsOk, OneAfterAnother;
    if |ps| == 1 {
      assert past + ps[1..] == past;
      EmptyIsNothing(env);
    } else {
      assert PieceAt(src, ps[0], ps[1]);
      assert past + [ps[1]] == (past + ps[1..])[..|past| + 1];
      assert past + [ps[1]] + ps[1..][1..] == past + ps[1..];
      var e := ParseRep(src, ps[0]).e;
      JoinedMore(src, acc, past, e, ps[1], env);
      BothBounds(acc, e);
      PiecesRead(src, Some(if acc.Some? then Cat(acc.value, e) else e), past + [ps[1]], ps[1..], env);
    }
  }

  lemma EmptyIsNothing(env: Env)
    ensures forall i: nat, j: nat :: Matches(Empty, env, i, j) <==> i == j
  {
  }

  lemma BothBounds(acc: Option<Ere>, e: Ere)
    requires BoundsOk(e) && (acc.Some? ==> BoundsOk(acc.value))
    ensures acc.Some? ==> BoundsOk(Cat(acc.value, e))
  {
  }

  /** A concatenation denotes what can be cut into one stretch for each of its pieces. */
  lemma Concatenation(src: Source, ps: seq<nat>, env: Env, i: nat, j: nat)
    requires PiecesAt(src, ps) && Closes(src.text, ps[|ps| - 1])
    ensures var r := ParseCat(src, None, ps[0]);
      && r.Good? && r.pos == ps[|ps| - 1]
      && (Matches(r.e, env, i, j) <==> OneAfterAnother(src, ps, env, i, j))
  {
    hide Matches;
    assert [ps[0]] + ps[1..] == ps;
    forall i: nat, j: nat ensures OneAfterAnother(src, [ps[0]], env, i, j) <==> i == j {
      if i == j { assert PieceByPiece(src, [ps[0]], env, i, j, [i]); }
    }
    PiecesRead(src, None, [ps[0]], ps, env);
  }

  /** The alternatives from `ps[0]` on, each beginning after the bar that ends the one before. */
  predicate BranchesAt(src: Source, ps: seq<nat>) {
    && |ps| > 0
    && (forall k :: 0 <= k < |ps| ==> ps[k] <= |src.text| && ParseCat(src, None, ps[k]).Good?)
    && (forall k :: 0 <= k < |ps| - 1 ==> BarBefore(src, ps[k], ps[k + 1]))
  }

  predicate BarBefore(src: Source, p: nat, q: nat)
    requires p <= |src.text|
  {
    var r := ParseCat(src, None, p);
    r.Good? && r.pos < |src.text| && src.text[r.pos] == '|' && q == r.pos + 1
  }

  ghost predicate AnyOf(src: Source, ps: seq<nat>, env: Env, i: nat, j: nat)
    requires BranchesAt(src, ps)
  {
    exists k :: 0 <= k < |ps| && Gives(ParseCat(src, None, ps[k]), env, i, j)
  }

  lemma {:induction false} BranchesRead(src: Source, acc: Ere, ps: seq<nat>, n: nat, env: Env)
    requires BranchesAt(src, ps) && n < |ps| && BranchesAt(src, ps[..n + 1]) && BoundsOk(acc)
    requires forall i: nat, j: nat :: Matches(acc, env, i, j) <==> AnyOf(src, ps[..n + 1], env, i, j)
    requires At(src.text, ParseCat(src, None, ps[|ps| - 1]).pos) != '|'
    ensures var r := ParseAltMore(src, acc, ParseCat(src, None, ps[n]).pos);
      && r.Good? && r.pos == ParseCat(src, None, ps[|ps| - 1]).pos
      && forall i: nat, j: nat :: Matches(r.e, env, i, j) <==> AnyOf(src, ps, env, i, j)
    decreases |ps| - n
  {
    hide Matches, BoundsOk, Gives, AnyOf, ParseCat;
    if n + 1 == |ps| {
      assert ps[..n + 1] == ps;
    } else {
      assert BarBefore(src, ps[n], ps[n + 1]);
      var r := ParseCat(src, None, ps[n + 1]);
      var some, more := ps[..n + 1], ps[..n + 2];
      forall k | 0 <= k < |more| - 1 ensures BarBefore(src, more[k], more[k + 1]) {
        assert BarBefore(src, ps[k], ps[k + 1]);
      }
      AltBounds(acc, r.e);
      forall i: nat, j: nat ensures Matches(Alt(acc, r.e), env, i, j) <==> AnyOf(src, more, env, i, j) {
        EitherOne(acc, r.e, env, i, j);
        OneBranchMore(src, some, ps[n + 1], env, i, j);
        GivesGood(r, env, i, j);
        assert some + [ps[n + 1]] == more;
      }
      BranchesRead(src, Alt(acc, r.e), ps, n + 1, env);
    }
  }

  lemma OneBranchMore(src: Source, ps: seq<nat>, p: nat, env: Env, i: nat, j: nat)
    requires BranchesAt(src, ps) && BranchesAt(src, ps + [p]) && p <= |src.text|
    ensures AnyOf(src, ps + [p], env, i, j) <==> AnyOf(src, ps, env, i, j) || Gives(ParseCat(src, None, p), env, i, j)
  {
    var more := ps + [p];
    assert more[|ps|] == p && forall k :: 0 <= k < |ps| ==> more[k] == ps[k];
    hide Gives;
  }

  lemma GivesGood(r: Parsed, env: Env, i: nat, j: nat)
    requires r.Good?
    ensures Gives(r, env, i, j) <==> Matches(r.e, env, i, j)
  {
  }

  lemma AltBounds(a: Ere, b: Ere)
    requires BoundsOk(a) && BoundsOk(b)
    ensures BoundsOk(Alt(a, b))
  {
  }

  lemma EitherOne(a: Ere, b: Ere, env: Env, i: nat, j: nat)
    ensures Matches(Alt(a, b), env, i, j) <==> Matches(a, env, i, j) || Matches(b, env, i, j)
  {
  }

  /** An alternation denotes what any of its branches denotes. */
  lemma Alternation(src: Source, ps: seq<nat>, env: Env, i: nat, j: nat)
    requires BranchesAt(src, ps) && At(src.text, ParseCat(src, None, ps[|ps| - 1]).pos) != '|'
    ensures var r := ParseAlt(src, ps[0]);
      && r.Good? && r.pos == ParseCat(src, None, ps[|ps| - 1]).pos
      && (Matches(r.e, env, i, j) <==> AnyOf(src, ps, env, i, j))
  {
    hide Matches;
    var r := ParseCat(src, None, ps[0]);
    assert ps[..1] == [ps[0]];
    forall i: nat, j: nat ensures Matches(r.e, env, i, j) <==> AnyOf(src, ps[..1], env, i, j) {}
    BranchesRead(src, r.e, ps, 0, env);
  }

  // ----- refusals

  lemma {:induction false} BrokenPiece(src: Source, acc: Option<Ere>, ps: seq<nat>)
    requires PiecesAt(src, ps) && (acc.Some? ==> BoundsOk(acc.value))
    requires !Closes(src.text, ps[|ps| - 1]) && ParseAtom(src, ps[|ps| - 1]) == Bad
    ensures ParseCat(src, acc, ps[0]) == Bad
    decreases |ps|
  {
    hide BoundsOk, ParseAtom;
    if |ps| > 1 {
      assert PieceAt(src, ps[0], ps[1]);
      var e := ParseRep(src, ps[0]).e;
      BothBounds(acc, e);
      BrokenPiece(src, Some(if acc.Some? then Cat(acc.value, e) else e), ps[1..]);
    }
  }

  lemma {:induction false} BrokenBranch(src: Source, acc: Ere, ps: seq<nat>, p: nat)
    requires BranchesAt(src, ps) && BoundsOk(acc) && BarBefore(src, ps[|ps| - 1], p) && ParseCat(src, None, p) == Bad
    ensures ParseAltMore(src, acc, ParseCat(src, None, ps[0]).pos) == Bad
    decreases |ps|
  {
    hide BoundsOk, ParseCat;
    if |ps| > 1 {
      assert BarBefore(src, ps[0], ps[1]);
      forall k | 0 <= k < |ps| - 2 ensures BarBefore(src, ps[1..][k], ps[1..][k + 1]) {
        assert BarBefore(src, ps[k + 1], ps[k + 1 + 1]);
      }
      AltBounds(acc, ParseCat(src, None, ps[1]).e);
      BrokenBranch(src, Alt(acc, ParseCat(src, None, ps[1]).e), ps[1..], p);
    }
  }

  /** A pattern is refused for an atom that is none, in any branch, and for text left over. */
  lemma Refused(src: Source, branches: seq<nat>, ps: seq<nat>)
    requires BranchesAt(src, [0] + branches) || branches == []
    requires ps != [] && PiecesAt(src, ps)
    requires if branches == [] then ps[0] == 0 else BarBefore(src, ([0] + branches)[|branches|], ps[0])
    requires !Closes(src.text, ps[|ps| - 1]) && ParseAtom(src, ps[|ps| - 1]) == Bad
    ensures ParsePattern(src) == None
  {
    hide ParseAtom, ParseCat;
    BrokenPiece(src, None, ps);
    if branches != [] {
      var all := [0] + branches;
      BrokenBranch(src, ParseCat(src, None, all[0]).e, all, ps[0]);
    }
  }

  /** And for a parenthesis that nothing opened. */
  lemma StrayParenthesis(src: Source, ps: seq<nat>)
    requires BranchesAt(src, ps) && ps[0] == 0 && At(src.text, ParseCat(src, None, ps[|ps| - 1]).pos) == ')'
    ensures ParsePattern(src) == None
  {
    hide ParseCat;
    Alternation(src, ps, Env(false, false, ""), 0, 0);
  }

  // ----- two kinds of whole pattern

  /** One branch of one piece after another up to the end of the pattern. */
  lemma OneBranch(src: Source, ps: seq<nat>, env: Env, i: nat, j: nat)
    requires PiecesAt(src, ps) && ps[0] == 0 && ps[|ps| - 1] == |src.text|
    ensures ParsePattern(src).Some?
    ensures Matches(ParsePattern(src).value, env, i, j) <==> OneAfterAnother(src, ps, env, i, j)
  {
    hide Matches;
    Concatenation(src, ps, env, i, j);
    Alternation(src, [0], env, i, j);
    assert AnyOf(src, [0], env, i, j) <==> Gives(ParseCat(src, None, [0][0]), env, i, j);
  }

  /** The pattern is an atom and the operators after it. */
  lemma RepeatedPattern(src: Source, ops: seq<Repeat>, env: Env, i: nat, j: nat)
    requires src.text != "" && ParseAtom(src, 0).Good? && AllLegal(ops) && !Closes(src.text, 0)
    requires src.text[ParseAtom(src, 0).pos..] == AllWritten(ops)
    ensures ParsePattern(src).Some?
    ensures Matches(ParsePattern(src).value, env, i, j) <==> Repeated(ParseAtom(src, 0).e, ops, env, i, j)
  {
    hide Matches, Repeated, ParseRep, ParseAtom, ParsePattern, AllLegal;
    var q := ParseAtom(src, 0).pos;
    assert Holds(src.text, q, AllWritten(ops));
    NothingAtEnd(src.text);
    RepeatedAtom(src, 0, ops, env, i, j);
    var ps := [0, |src.text|];
    assert PieceAt(src, ps[0], ps[1]);
    OneBranch(src, ps, env, i, j);
    var r := ParseRep(src, 0);
    if Gives(r, env, i, j) {
      assert Gives(ParseRep(src, ps[0]), env, [i, j][0], [i, j][1]);
      assert PieceByPiece(src, ps, env, i, j, [i, j]);
    }
    if OneAfterAnother(src, ps, env, i, j) {
      var cuts: seq<nat> :| PieceByPiece(src, ps, env, i, j, cuts);
      assert Gives(ParseRep(src, ps[0]), env, cuts[0], cuts[0 + 1]);
    }
  }

  lemma NothingAtEnd(text: CString)
    ensures !Repeats(text, |text|)
  {
    forall op | Legal(op) ensures Written(op) != "" {}
  }

  lemma OperatorsBegin(text: CString, p: nat)
    requires p < |text| && text[p] !in "*+?{"
    ensures !Repeats(text, p)
  {
    if op :| Legal(op) && Holds(text, p, Written(op)) {
      HoldsAt(text, p, Written(op), 0);
    }
  }

  predicate AllAlike(env: Env, text: string, i: nat)
    requires i + |text| <= |env.subject|
  {
    forall k :: 0 <= k < |text| ==> Alike(env, env.subject[i + k], text[k])
  }

  /** A pattern of ordinary characters asks for bytes like them, in order. */
  lemma PlainText(src: Source, env: Env, i: nat, j: nat)
    requires forall k :: 0 <= k < |src.text| ==> Ordinary(src.text[k]) && src.text[k] != '{'
    ensures ParsePattern(src).Some?
    ensures Matches(ParsePattern(src).value, env, i, j)
       <==> (j == i + |src.text| && (src.text == "" || (j <= |env.subject| && AllAlike(env, src.text, i))))
  {
    hide Matches;
    var n := |src.text|;
    var ps := seq(n + 1, k requires 0 <= k <= n => k as nat);
    forall k | 0 <= k < n ensures PieceAt(src, ps[k], ps[k + 1]) {
      PlainPiece(src, k, env, 0, 0);
    }
    OneBranch(src, ps, env, i, j);
    if OneAfterAnother(src, ps, env, i, j) {
      var cuts: seq<nat> :| PieceByPiece(src, ps, env, i, j, cuts);
      forall k | 0 <= k < n ensures OneLike(src.text[k], env, cuts[k], cuts[k + 1]) {
        assert Gives(ParseRep(src, ps[k]), env, cuts[k], cuts[k + 1]);
        PlainPiece(src, k, env, cuts[k], cuts[k + 1]);
      }
      EvenCuts(src.text, env, i, cuts);
    }
    if j == i + n && (n == 0 || (j <= |env.subject| && AllAlike(env, src.text, i))) {
      var cuts := seq(n + 1, k requires 0 <= k <= n => (i + k) as nat);
      forall k | 0 <= k < n ensures Gives(ParseRep(src, ps[k]), env, cuts[k], cuts[k + 1]) {
        PlainPiece(src, k, env, cuts[k], cuts[k + 1]);
      }
      assert PieceByPiece(src, ps, env, i, j, cuts);
    }
  }

  lemma PlainPiece(src: Source, p: nat, env: Env, i: nat, j: nat)
    requires forall k :: 0 <= k < |src.text| ==> Ordinary(src.text[k]) && src.text[k] != '{'
    requires p < |src.text|
    ensures PieceAt(src, p, p + 1)
    ensures Gives(ParseRep(src, p), env, i, j) <==> OneLike(src.text[p], env, i, j)
  {
    hide Matches, OneLike;
    CharacterAtom(src, p, env, i, j);
    if p + 1 < |src.text| { OperatorsBegin(src.text, p + 1); } else { NothingAtEnd(src.text); }
    RepeatedAtom(src, p, [], env, i, j);
  }

  lemma {:induction false} EvenCuts(text: string, env: Env, i: nat, cuts: seq<nat>)
    requires |cuts| == |text| + 1 && cuts[0] == i
    requires forall k :: 0 <= k < |text| ==> OneLike(text[k], env, cuts[k], cuts[k + 1])
    ensures cuts[|text|] == i + |text|
    ensures text != "" ==> i + |text| <= |env.subject| && AllAlike(env, text, i)
    decreases |text|
  {
    if text != "" {
      var n := |text| - 1;
      assert OneLike(text[n], env, cuts[n], cuts[n + 1]);
      EvenCuts(text[..n], env, i, cuts[..n + 1]);
    }
  }
}
