/** The backtracking matcher: recursion over immutable nodes and continuation frames, with
    a step count threaded through and an optional step budget. */
module RegexMatcher {
  import opened RegexProgram
  import opened RegexMeaning

  const RE_MAX_STEPS: nat := 200000

  /** What is left to match: a frame per pending node or running repetition. */
  datatype Cont =
    | Done
    | Then(node: nat, next: Cont)
    | Loop(rep: nat, count: nat, mark: nat, next: Cont)

  datatype Limit = NoLimit | AtMost(steps: nat)
  datatype Ctx = Ctx(steps: nat, spent: bool)
  datatype Outcome = Outcome(matched: bool, ctx: Ctx)

  predicate ContOk(p: Prog, k: Cont) {
    match k
    case Done => true
    case Then(n, next) => n < |p.nodes| && ContOk(p, next)
    case Loop(rep, _, _, next) => rep < |p.nodes| && p.nodes[rep].NRep? && ContOk(p, next)
  }

  function EnvOf(p: Prog, subject: CString): Env {
    Env(p.icase, p.newline, subject)
  }

  // ----- the measure that makes the matcher terminate without its budget

  function Size(p: Prog, n: nat): nat
    requires ProgOk(p) && n < |p.nodes|
    decreases n
  {
    assert NodeOk(p.nodes, |p.sets|, n);
    match p.nodes[n]
    case NCat(a, b) => Size(p, a) + Size(p, b) + 2
    case NAlt(a, b) => Size(p, a) + Size(p, b) + 1
    case NRep(a, _, _) => Size(p, a) + 4
    case _ => 1
  }

  /** A repetition whose last iteration ended where it began can only be left. */
  function LoopLoad(p: Prog, rep: nat, count: nat, mark: nat, s: nat): nat
    requires ProgOk(p) && rep < |p.nodes| && p.nodes[rep].NRep?
  {
    assert NodeOk(p.nodes, |p.sets|, rep);
    if count > 0 && s == mark then 1 else Size(p, p.nodes[rep].a) + 3
  }

  function Load(p: Prog, k: Cont, s: nat): nat
    requires ProgOk(p) && ContOk(p, k)
  {
    match k
    case Done => 0
    case Then(n, next) => Size(p, n) + 1 + Load(p, next, s)
    case Loop(rep, count, mark, next) => LoopLoad(p, rep, count, mark, s) + Load(p, next, s)
  }

  // ----- the matcher

  function Run(p: Prog, subject: CString, limit: Limit, c: Ctx, node: nat, s: nat, k: Cont): (r: Outcome)
    requires ProgOk(p) && ContOk(p, k) && node < |p.nodes| && s <= |subject|
    ensures c.spent ==> r == Outcome(false, c)
    ensures r.matched ==> !r.ctx.spent
    ensures c.steps <= r.ctx.steps
    ensures limit.NoLimit? && !c.spent ==> !r.ctx.spent
    ensures limit.AtMost? && !c.spent && r.ctx.spent ==> r.ctx.steps > limit.steps
    decreases |subject| - s, Size(p, node) + Load(p, k, s), 0
  {
    if c.spent then Outcome(false, c) else
    var c1 := c.(steps := c.steps + 1);
    if limit.AtMost? && c1.steps > limit.steps then Outcome(false, c1.(spent := true)) else
    assert NodeOk(p.nodes, |p.sets|, node);
    var env := EnvOf(p, subject);
    match p.nodes[node]
    case NEmpty => ContRun(p, subject, limit, c1, k, s)
    case NChar(ch) =>
      if Eats(Lit(ch), env, s) then ContRun(p, subject, limit, c1, k, s + 1) else Outcome(false, c1)
    case NAny =>
      if Eats(Any, env, s) then ContRun(p, subject, limit, c1, k, s + 1) else Outcome(false, c1)
    case NSet(i) =>
      if Eats(OneOf(p.sets[i]), env, s) then ContRun(p, subject, limit, c1, k, s + 1) else Outcome(false, c1)
    case NBol => if AtBol(env, s) then ContRun(p, subject, limit, c1, k, s) else Outcome(false, c1)
    case NEol => if AtEol(env, s) then ContRun(p, subject, limit, c1, k, s) else Outcome(false, c1)
    case NCat(a, b) => Run(p, subject, limit, c1, a, s, Then(b, k))
    case NAlt(a, b) =>
      var r := Run(p, subject, limit, c1, a, s, k);
      if r.matched then r else Run(p, subject, limit, r.ctx, b, s, k)
    case NRep(_, _, _) => RepStep(p, subject, limit, c1, node, 0, 0, s, k)
  }

  function RepStep(p: Prog, subject: CString, limit: Limit, c: Ctx,
                   rep: nat, count: nat, mark: nat, s: nat, k: Cont): (r: Outcome)
    requires ProgOk(p) && ContOk(p, k) && rep < |p.nodes| && p.nodes[rep].NRep? && s <= |subject|
    ensures c.spent ==> r == Outcome(false, c)
    ensures r.matched ==> !r.ctx.spent
    ensures c.steps <= r.ctx.steps
    ensures limit.NoLimit? && !c.spent ==> !r.ctx.spent
    ensures limit.AtMost? && !c.spent && r.ctx.spent ==> r.ctx.steps > limit.steps
    decreases |subject| - s, LoopLoad(p, rep, count, mark, s) + Load(p, k, s), 0
  {
    assert NodeOk(p.nodes, |p.sets|, rep);
    var n := p.nodes[rep];
    if c.spent then Outcome(false, c)
    else if count > 0 && s == mark then ContRun(p, subject, limit, c, k, s)
    else if BelowHi(count, n.hi) then
      var r := Run(p, subject, limit, c, n.a, s, Loop(rep, count + 1, s, k));
      if r.matched || r.ctx.spent then r
      else if count >= n.lo then ContRun(p, subject, limit, r.ctx, k, s)
      else Outcome(false, r.ctx)
    else if count >= n.lo then ContRun(p, subject, limit, c, k, s)
    else Outcome(false, c)
  }

  function ContRun(p: Prog, subject: CString, limit: Limit, c: Ctx, k: Cont, s: nat): (r: Outcome)
    requires ProgOk(p) && ContOk(p, k) && s <= |subject|
    ensures c.spent ==> r == Outcome(false, c)
    ensures r.matched ==> !r.ctx.spent
    ensures c.steps <= r.ctx.steps
    ensures limit.NoLimit? && !c.spent ==> !r.ctx.spent
    ensures limit.AtMost? && !c.spent && r.ctx.spent ==> r.ctx.steps > limit.steps
    decreases |subject| - s, Load(p, k, s), 1
  {
    if c.spent then Outcome(false, c) else
    match k
    case Done => Outcome(true, c)
    case Then(node, next) => Run(p, subject, limit, c, node, s, next)
    case Loop(rep, count, mark, next) => RepStep(p, subject, limit, c, rep, count, mark, s, next)
  }

  // ----- what a continuation accepts

  /** A repetition of `b` that has done `count` iterations can finish between `s` and `t`. */
  ghost predicate Remaining(b: Ere, lo: nat, hi: nat, env: Env, count: nat, s: nat, t: nat) {
    exists i: nat | WithinHi(count + i, hi) && (count + i >= lo || (BelowHi(count + i, hi) && Cut(b, env, t, t))) ::
      Strides(b, i, env, s, t)
  }

  ghost predicate Accepts(p: Prog, env: Env, k: Cont, s: nat)
    requires ProgOk(p) && ContOk(p, k)
  {
    match k
    case Done => true
    case Then(n, next) => exists t: nat :: Cut(Tree(p.nodes, p.sets, n), env, s, t) && Accepts(p, env, next, t)
    case Loop(rep, count, mark, next) =>
      if count > 0 && s == mark then Accepts(p, env, next, s)
      else exists t: nat :: RepRemaining(p, env, rep, count, s, t) && Accepts(p, env, next, t)
  }

  ghost predicate RepRemaining(p: Prog, env: Env, rep: nat, count: nat, s: nat, t: nat)
    requires ProgOk(p) && rep < |p.nodes| && p.nodes[rep].NRep?
  {
    assert NodeOk(p.nodes, |p.sets|, rep);
    var n := p.nodes[rep];
    Remaining(Tree(p.nodes, p.sets, n.a), n.lo, n.hi, env, count, s, t)
  }

  /** `e` can match from `s` and be followed by what `k` accepts. */
  ghost predicate Reaches(p: Prog, env: Env, e: Ere, k: Cont, s: nat)
    requires ProgOk(p) && ContOk(p, k)
  {
    exists t: nat :: Cut(e, env, s, t) && Accepts(p, env, k, t)
  }

  lemma CutForward(e: Ere, env: Env, i: nat, j: nat)
    requires BoundsOk(e) && Cut(e, env, i, j)
    ensures i <= j && (i <= |env.subject| ==> j <= |env.subject|)
  {
    CutSound(e, env, i, j);
    MatchesForward(e, env, i, j);
  }

  ghost predicate StrideOn(b: Ere, lo: nat, hi: nat, env: Env, count: nat, s: nat, t: nat) {
    exists m: nat | s < m <= t :: Cut(b, env, s, m) && Remaining(b, lo, hi, env, count + 1, m, t)
  }

  /** One turn of a repetition: leave it, take an empty last iteration, or stride on. */
  lemma RemainingUnfolds(b: Ere, lo: nat, hi: nat, env: Env, count: nat, s: nat, t: nat)
    requires WithinHi(count, hi)
    ensures Remaining(b, lo, hi, env, count, s, t) <==>
            || (s == t && count >= lo)
            || (BelowHi(count, hi) && s == t && Cut(b, env, s, s))
            || (BelowHi(count, hi) && StrideOn(b, lo, hi, env, count, s, t))
  {
    hide Cut;
    if Remaining(b, lo, hi, env, count, s, t) {
      var i: nat :| WithinHi(count + i, hi) && (count + i >= lo || (BelowHi(count + i, hi) && Cut(b, env, t, t))) && Strides(b, i, env, s, t);
      if i > 0 {
        var m := FirstStride(b, i, env, s, t);
        var c1, i1 := count + 1, i - 1;
        assert c1 + i1 == count + i;
        assert Remaining(b, lo, hi, env, c1, m, t);
      }
    }
    if s == t && (count >= lo || (BelowHi(count, hi) && Cut(b, env, s, s))) {
      assert Strides(b, 0, env, s, t);
      assert count + 0 == count;
    }
    if StrideOn(b, lo, hi, env, count, s, t) {
      var m: nat :| s < m <= t && Cut(b, env, s, m) && Remaining(b, lo, hi, env, count + 1, m, t);
      var c1 := count + 1;
      var i1: nat :| WithinHi(c1 + i1, hi) && (c1 + i1 >= lo || (BelowHi(c1 + i1, hi) && Cut(b, env, t, t))) && Strides(b, i1, env, m, t);
      var i := i1 + 1;
      assert Strides(b, i, env, s, t);
      assert count + i == c1 + i1;
    }
  }

  // ----- the core: a run decides exactly what its node and continuation allow

  ghost predicate RunIsExact(p: Prog, subject: CString, limit: Limit, c: Ctx, node: nat, s: nat, k: Cont)
    requires ProgOk(p) && ContOk(p, k) && node < |p.nodes| && s <= |subject|
  {
    var r := Run(p, subject, limit, c, node, s, k);
    !r.ctx.spent ==> (r.matched <==> Reaches(p, EnvOf(p, subject), Tree(p.nodes, p.sets, node), k, s))
  }

  /** Unless the budget ran out, `re_run` matches if and only if the node reaches some end
      from which the continuation accepts. */
  lemma {:induction false} RunDecides(p: Prog, subject: CString, limit: Limit, c: Ctx, node: nat, s: nat, k: Cont)
    requires ProgOk(p) && ContOk(p, k) && CountsOk(p, k) && node < |p.nodes| && s <= |subject|
    ensures RunIsExact(p, subject, limit, c, node, s, k)
    decreases |subject| - s, Size(p, node) + Load(p, k, s), 1
  {
    match p.nodes[node]
    case NCat(_, _) => CatDecides(p, subject, limit, c, node, s, k);
    case NAlt(_, _) => AltDecides(p, subject, limit, c, node, s, k);
    case NRep(_, _, _) =>
      var c1 := c.(steps := c.steps + 1);
      RepDecides(p, subject, limit, c1, node, 0, 0, s, k);
      RepReaches(p, EnvOf(p, subject), node, k, s);
    case _ => LeafDecides(p, subject, limit, c, node, s, k);
  }

  lemma {:induction false} LeafDecides(p: Prog, subject: CString, limit: Limit, c: Ctx, node: nat, s: nat, k: Cont)
    requires ProgOk(p) && ContOk(p, k) && CountsOk(p, k) && node < |p.nodes| && s <= |subject|
    requires IsLeaf(Tree(p.nodes, p.sets, node))
    ensures RunIsExact(p, subject, limit, c, node, s, k)
    decreases |subject| - s, Size(p, node) + Load(p, k, s), 0
  {
    hide Reaches, Accepts, Cut;
    var env, e, c1 := EnvOf(p, subject), Tree(p.nodes, p.sets, node), c.(steps := c.steps + 1);
    LeafReaches(p, env, e, k, s);
    if LeafHolds(e, env, s) {
      ContDecides(p, subject, limit, c1, k, LeafEnd(e, s));
    }
  }

  lemma {:induction false} CatDecides(p: Prog, subject: CString, limit: Limit, c: Ctx, node: nat, s: nat, k: Cont)
    requires ProgOk(p) && ContOk(p, k) && CountsOk(p, k) && node < |p.nodes| && s <= |subject|
    requires p.nodes[node].NCat?
    ensures RunIsExact(p, subject, limit, c, node, s, k)
    decreases |subject| - s, Size(p, node) + Load(p, k, s), 0
  {
    hide Reaches, Accepts, Cut;
    assert NodeOk(p.nodes, |p.sets|, node);
    var NCat(a, b) := p.nodes[node];
    RunDecides(p, subject, limit, c.(steps := c.steps + 1), a, s, Then(b, k));
    CatReaches(p, EnvOf(p, subject), a, b, k, s);
  }

  lemma {:induction false} AltDecides(p: Prog, subject: CString, limit: Limit, c: Ctx, node: nat, s: nat, k: Cont)
    requires ProgOk(p) && ContOk(p, k) && CountsOk(p, k) && node < |p.nodes| && s <= |subject|
    requires p.nodes[node].NAlt?
    ensures RunIsExact(p, subject, limit, c, node, s, k)
    decreases |subject| - s, Size(p, node) + Load(p, k, s), 0
  {
    hide Reaches, Accepts, Cut;
    assert NodeOk(p.nodes, |p.sets|, node);
    var NAlt(a, b) := p.nodes[node];
    var c1 := c.(steps := c.steps + 1);
    RunDecides(p, subject, limit, c1, a, s, k);
    RunDecides(p, subject, limit, Run(p, subject, limit, c1, a, s, k).ctx, b, s, k);
    AltReaches(p, EnvOf(p, subject), a, b, k, s);
  }

  lemma {:induction false} RepDecides(p: Prog, subject: CString, limit: Limit, c: Ctx,
                                      rep: nat, count: nat, mark: nat, s: nat, k: Cont)
    requires ProgOk(p) && ContOk(p, k) && CountsOk(p, k) && rep < |p.nodes| && p.nodes[rep].NRep? && s <= |subject|
    requires WithinHi(count, p.nodes[rep].hi)
    ensures var r := RepStep(p, subject, limit, c, rep, count, mark, s, k);
            !r.ctx.spent ==> (r.matched <==> Accepts(p, EnvOf(p, subject), Loop(rep, count, mark, k), s))
    decreases |subject| - s, LoopLoad(p, rep, count, mark, s) + Load(p, k, s), 0
  {
    var env := EnvOf(p, subject);
    var r := RepStep(p, subject, limit, c, rep, count, mark, s, k);
    assert NodeOk(p.nodes, |p.sets|, rep);
    var n := p.nodes[rep];
    if r.ctx.spent { return; }
    if count > 0 && s == mark {
      ContDecides(p, subject, limit, c, k, s);
    } else {
      var c2 := c;
      if BelowHi(count, n.hi) {
        var again := Loop(rep, count + 1, s, k);
        RunDecides(p, subject, limit, c, n.a, s, again);
        c2 := Run(p, subject, limit, c, n.a, s, again).ctx;
        BodyReaches(p, env, rep, count, k, s);
      }
      if count >= n.lo && !c2.spent {
        ContDecides(p, subject, limit, c2, k, s);
      }
      LoopUnfolds(p, env, rep, count, mark, k, s);
    }
  }

  lemma {:induction false} ContDecides(p: Prog, subject: CString, limit: Limit, c: Ctx, k: Cont, s: nat)
    requires ProgOk(p) && ContOk(p, k) && CountsOk(p, k) && s <= |subject|
    ensures var r := ContRun(p, subject, limit, c, k, s);
            !r.ctx.spent ==> (r.matched <==> Accepts(p, EnvOf(p, subject), k, s))
    decreases |subject| - s, Load(p, k, s), 2
  {
    if ContRun(p, subject, limit, c, k, s).ctx.spent { return; }
    match k
    case Done =>
    case Then(node, next) => RunDecides(p, subject, limit, c, node, s, next);
    case Loop(rep, count, mark, next) => RepDecides(p, subject, limit, c, rep, count, mark, s, next);
  }

  /** No frame counts more iterations than its repetition allows. */
  predicate CountsOk(p: Prog, k: Cont)
    requires ContOk(p, k)
  {
    match k
    case Done => true
    case Then(_, next) => CountsOk(p, next)
    case Loop(rep, count, _, next) => WithinHi(count, p.nodes[rep].hi) && CountsOk(p, next)
  }

  // ----- how reaching an end splits over the node kinds

  predicate IsLeaf(e: Ere) {
    !e.Cat? && !e.Alt? && !e.Rep?
  }

  /** Where a leaf that succeeds at `s` leaves the cursor. */
  function LeafEnd(e: Ere, s: nat): nat {
    if e.Lit? || e.Any? || e.OneOf? then s + 1 else s
  }

  predicate LeafHolds(e: Ere, env: Env, s: nat)
    requires IsLeaf(e)
  {
    match e
    case Empty => true
    case Bol => AtBol(env, s)
    case Eol => AtEol(env, s)
    case _ => Eats(e, env, s)
  }

  lemma LeafReaches(p: Prog, env: Env, e: Ere, k: Cont, s: nat)
    requires ProgOk(p) && ContOk(p, k) && IsLeaf(e)
    ensures Reaches(p, env, e, k, s) <==> LeafHolds(e, env, s) && Accepts(p, env, k, LeafEnd(e, s))
  {
    forall t: nat ensures Cut(e, env, s, t) <==> LeafHolds(e, env, s) && t == LeafEnd(e, s) {}
  }

  lemma CatSplit(l: Ere, r: Ere, env: Env, s: nat, t: nat) returns (m: nat)
    requires Cut(Cat(l, r), env, s, t)
    ensures s <= m <= t && Cut(l, env, s, m) && Cut(r, env, m, t)
  {
    m :| s <= m <= t && Cut(l, env, s, m) && Cut(r, env, m, t);
  }

  lemma LoopEnd(p: Prog, env: Env, rep: nat, count: nat, mark: nat, s: nat, k: Cont) returns (t: nat)
    requires ProgOk(p) && ContOk(p, k) && rep < |p.nodes| && p.nodes[rep].NRep?
    requires !(count > 0 && s == mark) && Accepts(p, env, Loop(rep, count, mark, k), s)
    ensures RepRemaining(p, env, rep, count, s, t) && Accepts(p, env, k, t)
  {
    t :| RepRemaining(p, env, rep, count, s, t) && Accepts(p, env, k, t);
  }

  lemma CatReaches(p: Prog, env: Env, a: nat, b: nat, k: Cont, s: nat)
    requires ProgOk(p) && ContOk(p, k) && a < |p.nodes| && b < |p.nodes|
    ensures var (ea, eb) := (Tree(p.nodes, p.sets, a), Tree(p.nodes, p.sets, b));
            Reaches(p, env, Cat(ea, eb), k, s) <==> Reaches(p, env, ea, Then(b, k), s)
  {
    var ea, eb := Tree(p.nodes, p.sets, a), Tree(p.nodes, p.sets, b);
    if Reaches(p, env, Cat(ea, eb), k, s) {
      CatReachesFirst(p, env, ea, b, k, s);
    }
    if Reaches(p, env, ea, Then(b, k), s) {
      TreeBoundsOk(p.nodes, p.sets, a);
      FirstReachesCat(p, env, ea, b, k, s);
    }
  }

  lemma CatReachesFirst(p: Prog, env: Env, ea: Ere, b: nat, k: Cont, s: nat)
    requires ProgOk(p) && ContOk(p, k) && b < |p.nodes|
    requires Reaches(p, env, Cat(ea, Tree(p.nodes, p.sets, b)), k, s)
    ensures Reaches(p, env, ea, Then(b, k), s)
  {
    hide Tree;
    var eb := Tree(p.nodes, p.sets, b);
    var t: nat :| Cut(Cat(ea, eb), env, s, t) && Accepts(p, env, k, t);
    var m := CatSplit(ea, eb, env, s, t);
    hide Cut;
    assert Accepts(p, env, Then(b, k), m);
  }

  lemma FirstReachesCat(p: Prog, env: Env, ea: Ere, b: nat, k: Cont, s: nat)
    requires ProgOk(p) && ContOk(p, k) && b < |p.nodes| && BoundsOk(ea)
    requires Reaches(p, env, ea, Then(b, k), s)
    ensures Reaches(p, env, Cat(ea, Tree(p.nodes, p.sets, b)), k, s)
  {
    var eb := Tree(p.nodes, p.sets, b);
    TreeBoundsOk(p.nodes, p.sets, b);
    hide Tree, BoundsOk, ProgOk, ContOk, Cut, Accepts;
    var m: nat :| Cut(ea, env, s, m) && Accepts(p, env, Then(b, k), m);
    var t := ThenSplit(p, env, b, k, m);
    CatJoin(ea, eb, env, s, m, t);
  }

  lemma ThenSplit(p: Prog, env: Env, b: nat, k: Cont, m: nat) returns (t: nat)
    requires ProgOk(p) && ContOk(p, k) && b < |p.nodes| && Accepts(p, env, Then(b, k), m)
    ensures Cut(Tree(p.nodes, p.sets, b), env, m, t) && Accepts(p, env, k, t)
  {
    hide Tree, Cut;
    t :| Cut(Tree(p.nodes, p.sets, b), env, m, t) && Accepts(p, env, k, t);
  }

  lemma CatJoin(l: Ere, r: Ere, env: Env, i: nat, m: nat, j: nat)
    requires BoundsOk(l) && BoundsOk(r) && Cut(l, env, i, m) && Cut(r, env, m, j)
    ensures Cut(Cat(l, r), env, i, j)
  {
    CutForward(l, env, i, m);
    CutForward(r, env, m, j);
  }

  lemma AltReaches(p: Prog, env: Env, a: nat, b: nat, k: Cont, s: nat)
    requires ProgOk(p) && ContOk(p, k) && a < |p.nodes| && b < |p.nodes|
    ensures var (ea, eb) := (Tree(p.nodes, p.sets, a), Tree(p.nodes, p.sets, b));
            Reaches(p, env, Alt(ea, eb), k, s) <==> Reaches(p, env, ea, k, s) || Reaches(p, env, eb, k, s)
  {
    var ea, eb := Tree(p.nodes, p.sets, a), Tree(p.nodes, p.sets, b);
    if Reaches(p, env, ea, k, s) {
      var t: nat :| Cut(ea, env, s, t) && Accepts(p, env, k, t);
      assert Cut(Alt(ea, eb), env, s, t);
    }
    if Reaches(p, env, eb, k, s) {
      var t: nat :| Cut(eb, env, s, t) && Accepts(p, env, k, t);
      assert Cut(Alt(ea, eb), env, s, t);
    }
  }

  lemma RepReaches(p: Prog, env: Env, rep: nat, k: Cont, s: nat)
    requires ProgOk(p) && ContOk(p, k) && rep < |p.nodes| && p.nodes[rep].NRep?
    ensures Reaches(p, env, Tree(p.nodes, p.sets, rep), k, s) <==> Accepts(p, env, Loop(rep, 0, 0, k), s)
  {
    assert NodeOk(p.nodes, |p.sets|, rep);
    var n := p.nodes[rep];
    var b := Tree(p.nodes, p.sets, n.a);
    forall t: nat ensures Cut(Rep(b, n.lo, n.hi), env, s, t) <==> RepRemaining(p, env, rep, 0, s, t) {
      if Cut(Rep(b, n.lo, n.hi), env, s, t) {
        var i: nat :| WithinHi(i, n.hi) && (i >= n.lo || (BelowHi(i, n.hi) && Cut(b, env, t, t))) && Strides(b, i, env, s, t);
        assert 0 + i == i;
      }
      if RepRemaining(p, env, rep, 0, s, t) {
        var i: nat :| WithinHi(0 + i, n.hi) && (0 + i >= n.lo || (BelowHi(0 + i, n.hi) && Cut(b, env, t, t))) && Strides(b, i, env, s, t);
        assert 0 + i == i;
      }
    }
  }

  ghost predicate StridesOnTo(p: Prog, env: Env, b: Ere, lo: nat, hi: nat, count: nat, s: nat, k: Cont)
    requires ProgOk(p) && ContOk(p, k)
  {
    exists t: nat :: StrideOn(b, lo, hi, env, count, s, t) && Accepts(p, env, k, t)
  }

  /** What another iteration of the body leads to: leaving with an empty one, or striding on. */
  lemma BodyReaches(p: Prog, env: Env, rep: nat, count: nat, k: Cont, s: nat)
    requires ProgOk(p) && ContOk(p, k) && rep < |p.nodes| && p.nodes[rep].NRep?
    requires NodeOk(p.nodes, |p.sets|, rep)
    ensures var n := p.nodes[rep];
            var b := Tree(p.nodes, p.sets, n.a);
            Reaches(p, env, b, Loop(rep, count + 1, s, k), s) <==>
            || (Cut(b, env, s, s) && Accepts(p, env, k, s))
            || StridesOnTo(p, env, b, n.lo, n.hi, count, s, k)
  {
    var n := p.nodes[rep];
    var b := Tree(p.nodes, p.sets, n.a);
    var again := Loop(rep, count + 1, s, k);
    TreeBoundsOk(p.nodes, p.sets, n.a);
    if Reaches(p, env, b, again, s) {
      var m: nat :| Cut(b, env, s, m) && Accepts(p, env, again, m);
      CutForward(b, env, s, m);
      if m != s {
        var t := LoopEnd(p, env, rep, count + 1, s, m, k);
        RemainingForward(b, n.lo, n.hi, env, count + 1, m, t);
        assert StrideOn(b, n.lo, n.hi, env, count, s, t);
      }
    }
    if Cut(b, env, s, s) && Accepts(p, env, k, s) {
      assert Accepts(p, env, again, s);
    }
    if StridesOnTo(p, env, b, n.lo, n.hi, count, s, k) {
      var t: nat :| StrideOn(b, n.lo, n.hi, env, count, s, t) && Accepts(p, env, k, t);
      var m: nat :| s < m <= t && Cut(b, env, s, m) && Remaining(b, n.lo, n.hi, env, count + 1, m, t);
      assert RepRemaining(p, env, rep, count + 1, m, t);
      assert Accepts(p, env, again, m);
    }
  }

  lemma RemainingForward(b: Ere, lo: nat, hi: nat, env: Env, count: nat, s: nat, t: nat)
    requires Remaining(b, lo, hi, env, count, s, t)
    ensures s <= t
  {
    var i: nat :| WithinHi(count + i, hi) && Strides(b, i, env, s, t);
    StridesBound(b, i, env, s, t);
  }

  lemma LoopUnfolds(p: Prog, env: Env, rep: nat, count: nat, mark: nat, k: Cont, s: nat)
    requires ProgOk(p) && ContOk(p, k) && rep < |p.nodes| && p.nodes[rep].NRep? && WithinHi(count, p.nodes[rep].hi)
    requires !(count > 0 && s == mark)
    requires NodeOk(p.nodes, |p.sets|, rep)
    ensures var n := p.nodes[rep];
            var b := Tree(p.nodes, p.sets, n.a);
            Accepts(p, env, Loop(rep, count, mark, k), s) <==>
            || (count >= n.lo && Accepts(p, env, k, s))
            || (BelowHi(count, n.hi) && Cut(b, env, s, s) && Accepts(p, env, k, s))
            || (BelowHi(count, n.hi) && StridesOnTo(p, env, b, n.lo, n.hi, count, s, k))
  {
    var n := p.nodes[rep];
    var b := Tree(p.nodes, p.sets, n.a);
    forall t: nat
      ensures RepRemaining(p, env, rep, count, s, t) <==>
              || (s == t && count >= n.lo)
              || (BelowHi(count, n.hi) && s == t && Cut(b, env, s, s))
              || (BelowHi(count, n.hi) && StrideOn(b, n.lo, n.hi, env, count, s, t))
    {
      RemainingUnfolds(b, n.lo, n.hi, env, count, s, t);
    }
    if Accepts(p, env, Loop(rep, count, mark, k), s) {
      var t := LoopEnd(p, env, rep, count, mark, s, k);
      if s == t && (count >= n.lo || (BelowHi(count, n.hi) && Cut(b, env, s, s))) {
        assert Accepts(p, env, k, s);
      } else {
        assert StrideOn(b, n.lo, n.hi, env, count, s, t);
      }
    }
    if (count >= n.lo || (BelowHi(count, n.hi) && Cut(b, env, s, s))) && Accepts(p, env, k, s) {
      assert RepRemaining(p, env, rep, count, s, s);
      assert Accepts(p, env, Loop(rep, count, mark, k), s);
    }
    if BelowHi(count, n.hi) && StridesOnTo(p, env, b, n.lo, n.hi, count, s, k) {
      var t: nat :| StrideOn(b, n.lo, n.hi, env, count, s, t) && Accepts(p, env, k, t);
      assert RepRemaining(p, env, rep, count, s, t);
      assert Accepts(p, env, Loop(rep, count, mark, k), s);
    }
  }

  // ----- searching

  /** The whole of a search: does the expression match anywhere? */
  ghost predicate Occurs(e: Ere, env: Env) {
    exists i: nat, t: nat | i <= |env.subject| :: Matches(e, env, i, t)
  }

  ghost predicate CutOccursFrom(e: Ere, env: Env, i: nat) {
    exists t: nat :: Cut(e, env, i, t)
  }

  /** `re_search`: try every start position in turn, sharing one step budget. */
  method Search(p: Prog, subject: CString) returns (found: bool, spent: bool)
    requires ProgOk(p)
    ensures found ==> !spent && Occurs(TreeOf(p), EnvOf(p, subject))
    ensures found ==> exists i: nat | i <= |subject| :: CutOccursFrom(TreeOf(p), EnvOf(p, subject), i)
    ensures !found && !spent ==> forall i: nat | i <= |subject| :: !CutOccursFrom(TreeOf(p), EnvOf(p, subject), i)
    ensures !found && !spent && Steady(TreeOf(p), EnvOf(p, subject)) ==> !Occurs(TreeOf(p), EnvOf(p, subject))
  {
    ghost var env, e := EnvOf(p, subject), TreeOf(p);
    TreeBoundsOk(p.nodes, p.sets, p.root);
    var c := Ctx(0, false);
    var s := 0;
    while true
      invariant s <= |subject| && !c.spent
      invariant forall i: nat | i < s :: !CutOccursFrom(e, env, i)
      decreases |subject| - s
    {
      var r := Run(p, subject, AtMost(RE_MAX_STEPS), c, p.root, s, Done);
      RunDecides(p, subject, AtMost(RE_MAX_STEPS), c, p.root, s, Done);
      if r.matched {
        ghost var t: nat :| Cut(e, env, s, t);
        CutSound(e, env, s, t);
        assert CutOccursFrom(e, env, s);
        return true, false;
      }
      c := r.ctx;
      if c.spent { return false, true; }
      assert !CutOccursFrom(e, env, s) by {
        if t: nat :| Cut(e, env, s, t) { assert Accepts(p, env, Done, t); }
      }
      if s == |subject| {
        if Steady(e, env) && Occurs(e, env) {
          ghost var i: nat, t: nat :| i <= |subject| && Matches(e, env, i, t);
          CutComplete(e, env, i, t);
          assert CutOccursFrom(e, env, i);
        }
        return false, false;
      }
      s := s + 1;
    }
  }

  /** Without a budget every run ends by itself and its answer is exact. */
  lemma UnbudgetedRunIsExact(p: Prog, subject: CString, s: nat)
    requires ProgOk(p) && s <= |subject| && Steady(TreeOf(p), EnvOf(p, subject))
    ensures Run(p, subject, NoLimit, Ctx(0, false), p.root, s, Done).matched <==>
            exists t: nat :: Matches(TreeOf(p), EnvOf(p, subject), s, t)
  {
    var env, e := EnvOf(p, subject), TreeOf(p);
    TreeBoundsOk(p.nodes, p.sets, p.root);
    RunDecides(p, subject, NoLimit, Ctx(0, false), p.root, s, Done);
    forall t: nat ensures Cut(e, env, s, t) <==> Matches(e, env, s, t) { CutExact(e, env, s, t); }
    if t: nat :| Matches(e, env, s, t) {
      assert Cut(e, env, s, t) && Accepts(p, env, Done, t);
    }
    if Reaches(p, env, e, Done, s) {
      var t: nat :| Cut(e, env, s, t);
      assert Matches(e, env, s, t);
    }
  }

  /** A budget can only turn a match into "no match": an answer of yes is the unbudgeted
      one, and so is any answer given before the budget ran out. */
  lemma BudgetOnlyForgets(p: Prog, subject: CString, limit: Limit, c: Ctx, s: nat)
    requires ProgOk(p) && s <= |subject|
    ensures var r := Run(p, subject, limit, c, p.root, s, Done);
            var full := Run(p, subject, NoLimit, Ctx(0, false), p.root, s, Done);
            (r.matched ==> full.matched) && (!r.ctx.spent ==> r.matched == full.matched)
  {
    RunDecides(p, subject, limit, c, p.root, s, Done);
    RunDecides(p, subject, NoLimit, Ctx(0, false), p.root, s, Done);
  }
}
