/** What an extended regular expression denotes (section 9.4 of IEEE Std
    1003.1-2017, Base Definitions), as a relation on subject positions, and the
    relation a matcher decides when it stops iterating at the first empty iteration. */
module RegexMeaning {
  import opened Characters
  import opened RegexProgram

  datatype Env = Env(icase: bool, newline: bool, subject: CString)

  predicate SameChar(env: Env, a: char, b: char) {
    a == b || (env.icase && ToLower(a) == ToLower(b))
  }

  /** One-character expressions: does the byte at `i` satisfy `e`? */
  predicate Eats(e: Ere, env: Env, i: nat) {
    i < |env.subject| &&
    match e
    case Lit(c) => SameChar(env, env.subject[i], c)
    case Any => !(env.newline && env.subject[i] == '\n')
    case OneOf(ms) => env.subject[i] in ms
    case _ => false
  }

  predicate AtBol(env: Env, i: nat) {
    i == 0 || (env.newline && i <= |env.subject| && env.subject[i - 1] == '\n')
  }

  predicate AtEol(env: Env, i: nat) {
    i >= |env.subject| || (env.newline && env.subject[i] == '\n')
  }

  /** `e` denotes the stretch of the subject from `i` to `j`. */
  ghost predicate Matches(e: Ere, env: Env, i: nat, j: nat)
    decreases e, 0
  {
    match e
    case Empty => i == j
    case Bol => i == j && AtBol(env, i)
    case Eol => i == j && AtEol(env, i)
    case Cat(l, r) => exists m: nat | i <= m <= j :: Matches(l, env, i, m) && Matches(r, env, m, j)
    case Alt(l, r) => Matches(l, env, i, j) || Matches(r, env, i, j)
    case Rep(b, lo, hi) => exists n: nat | lo <= n && WithinHi(n, hi) :: Iterates(b, n, env, i, j)
    case _ => j == i + 1 && Eats(e, env, i)
  }

  /** `n` consecutive matches of `b`, empty ones included. */
  ghost predicate Iterates(b: Ere, n: nat, env: Env, i: nat, j: nat)
    decreases b, n + 1
  {
    if n == 0 then i == j
    else exists m: nat | i <= m <= j :: Matches(b, env, i, m) && Iterates(b, n - 1, env, m, j)
  }

  /** The same, except that a repetition may take an empty iteration only as its very last. */
  ghost predicate Cut(e: Ere, env: Env, i: nat, j: nat)
    decreases e, 0
  {
    match e
    case Empty => i == j
    case Bol => i == j && AtBol(env, i)
    case Eol => i == j && AtEol(env, i)
    case Cat(l, r) => exists m: nat | i <= m <= j :: Cut(l, env, i, m) && Cut(r, env, m, j)
    case Alt(l, r) => Cut(l, env, i, j) || Cut(r, env, i, j)
    case Rep(b, lo, hi) =>
      exists n: nat | WithinHi(n, hi) && (n >= lo || (BelowHi(n, hi) && Cut(b, env, j, j))) ::
        Strides(b, n, env, i, j)
    case _ => j == i + 1 && Eats(e, env, i)
  }

  /** `n` consecutive nonempty matches of `b`. */
  ghost predicate Strides(b: Ere, n: nat, env: Env, i: nat, j: nat)
    decreases b, n + 1
  {
    if n == 0 then i == j
    else exists m: nat | i < m <= j :: Cut(b, env, i, m) && Strides(b, n - 1, env, m, j)
  }

  // ----- both relations move forward and stay inside the subject

  lemma {:induction false} MatchesForward(e: Ere, env: Env, i: nat, j: nat)
    requires Matches(e, env, i, j)
    ensures i <= j && (i <= |env.subject| ==> j <= |env.subject|)
    decreases e, 0
  {
    match e
    case Cat(l, r) =>
      var m: nat :| i <= m <= j && Matches(l, env, i, m) && Matches(r, env, m, j);
      MatchesForward(l, env, i, m);
      MatchesForward(r, env, m, j);
    case Alt(l, r) =>
      if Matches(l, env, i, j) { MatchesForward(l, env, i, j); } else { MatchesForward(r, env, i, j); }
    case Rep(b, lo, hi) =>
      var n: nat :| lo <= n && WithinHi(n, hi) && Iterates(b, n, env, i, j);
      IteratesForward(b, n, env, i, j);
    case _ =>
  }

  lemma {:induction false} IteratesForward(b: Ere, n: nat, env: Env, i: nat, j: nat)
    requires Iterates(b, n, env, i, j)
    ensures i <= j && (i <= |env.subject| ==> j <= |env.subject|)
    decreases b, n + 1
  {
    if n > 0 {
      var m: nat :| i <= m <= j && Matches(b, env, i, m) && Iterates(b, n - 1, env, m, j);
      MatchesForward(b, env, i, m);
      IteratesForward(b, n - 1, env, m, j);
    }
  }

  lemma {:induction false} StridesBound(b: Ere, n: nat, env: Env, i: nat, j: nat)
    requires Strides(b, n, env, i, j)
    ensures i + n <= j
    decreases n
  {
    if n > 0 {
      var m: nat :| i < m <= j && Cut(b, env, i, m) && Strides(b, n - 1, env, m, j);
      StridesBound(b, n - 1, env, m, j);
    }
  }

  // ----- cutting at the first empty iteration invents nothing

  /** Soundness of the cut: iterations still owed are made up by empty ones. */
  lemma {:induction false} CutSound(e: Ere, env: Env, i: nat, j: nat)
    requires BoundsOk(e) && Cut(e, env, i, j)
    ensures Matches(e, env, i, j)
    decreases e, 0
  {
    match e
    case Cat(l, r) =>
      var m: nat :| i <= m <= j && Cut(l, env, i, m) && Cut(r, env, m, j);
      CutSound(l, env, i, m);
      CutSound(r, env, m, j);
    case Alt(l, r) =>
      if Cut(l, env, i, j) { CutSound(l, env, i, j); } else { CutSound(r, env, i, j); }
    case Rep(b, lo, hi) =>
      var n: nat :| WithinHi(n, hi) && (n >= lo || (BelowHi(n, hi) && Cut(b, env, j, j))) && Strides(b, n, env, i, j);
      StridesAreIterations(b, n, env, i, j);
      if n < lo {
        CutSound(b, env, j, j);
        PadAtEnd(b, n, lo - n, env, i, j);
        assert Iterates(b, lo, env, i, j);
      }
    case _ =>
  }

  lemma {:induction false} StridesAreIterations(b: Ere, n: nat, env: Env, i: nat, j: nat)
    requires BoundsOk(b) && Strides(b, n, env, i, j)
    ensures Iterates(b, n, env, i, j)
    decreases b, n + 1
  {
    if n > 0 {
      var m: nat :| i < m <= j && Cut(b, env, i, m) && Strides(b, n - 1, env, m, j);
      CutSound(b, env, i, m);
      StridesAreIterations(b, n - 1, env, m, j);
    }
  }

  lemma {:induction false} PadAtEnd(b: Ere, n: nat, extra: nat, env: Env, i: nat, j: nat)
    requires Iterates(b, n, env, i, j) && Matches(b, env, j, j)
    ensures Iterates(b, n + extra, env, i, j)
    decreases n, extra
  {
    if n > 0 {
      var m: nat :| i <= m <= j && Matches(b, env, i, m) && Iterates(b, n - 1, env, m, j);
      PadAtEnd(b, n - 1, extra, env, m, j);
      assert Iterates(b, n - 1 + extra, env, m, j);
    } else if extra > 0 {
      PadAtEnd(b, 0, extra - 1, env, j, j);
    }
  }

  // ----- and loses nothing, unless emptiness can be left behind

  /** Where `b` can match empty, it still can after any further match of `b`. */
  ghost predicate EmptyTravels(b: Ere, env: Env) {
    forall p: nat, q: nat | Matches(b, env, p, p) && Matches(b, env, p, q) :: Matches(b, env, q, q)
  }

  /** Every repetition that asks for two iterations or more has such a body. */
  ghost predicate Steady(e: Ere, env: Env) {
    match e
    case Cat(l, r) => Steady(l, env) && Steady(r, env)
    case Alt(l, r) => Steady(l, env) && Steady(r, env)
    case Rep(b, lo, _) => Steady(b, env) && (lo >= 2 ==> EmptyTravels(b, env))
    case _ => true
  }

  lemma {:induction false} CutComplete(e: Ere, env: Env, i: nat, j: nat)
    requires BoundsOk(e) && Steady(e, env) && Matches(e, env, i, j)
    ensures Cut(e, env, i, j)
    decreases e, 0, 0
  {
    match e
    case Cat(l, r) =>
      var m: nat :| i <= m <= j && Matches(l, env, i, m) && Matches(r, env, m, j);
      CutComplete(l, env, i, m);
      CutComplete(r, env, m, j);
    case Alt(l, r) =>
      if Matches(l, env, i, j) { CutComplete(l, env, i, j); } else { CutComplete(r, env, i, j); }
    case Rep(b, lo, hi) =>
      forall x: nat, y: nat ensures AgreesAt(b, env, x, y) {
        if Matches(b, env, x, y) { CutComplete(b, env, x, y); }
        if Cut(b, env, x, y) { CutSound(b, env, x, y); }
      }
      RepetitionComplete(b, lo, hi, env, i, j);
    case _ =>
  }

  ghost predicate AgreesAt(e: Ere, env: Env, i: nat, j: nat) {
    Cut(e, env, i, j) <==> Matches(e, env, i, j)
  }

  ghost predicate Agrees(e: Ere, env: Env) {
    forall i: nat, j: nat :: AgreesAt(e, env, i, j)
  }

  /** One repetition of a body the cut is right about. */
  lemma RepetitionComplete(b: Ere, lo: nat, hi: nat, env: Env, i: nat, j: nat)
    requires Agrees(b, env) && (lo >= 2 ==> EmptyTravels(b, env)) && Matches(Rep(b, lo, hi), env, i, j)
    ensures Cut(Rep(b, lo, hi), env, i, j)
  {
    var n: nat :| lo <= n && WithinHi(n, hi) && Iterates(b, n, env, i, j);
    var m := DropEmpties(b, n, lo >= 2, env, i, j);
    assert AgreesAt(b, env, j, j);
  }

  /** Leaving out the empty iterations of a repetition leaves strides.  If any were left out,
      the body also matches empty at the end: always when nothing else remains, and in
      general when emptiness travels. */
  lemma {:induction false} DropEmpties(b: Ere, n: nat, travels: bool, env: Env, i: nat, j: nat) returns (m: nat)
    requires Agrees(b, env) && Iterates(b, n, env, i, j)
    requires travels ==> EmptyTravels(b, env)
    ensures m <= n && Strides(b, m, env, i, j)
    ensures m < n && (travels || m == 0) ==> Matches(b, env, j, j)
    decreases n
  {
    if n == 0 {
      m := 0;
    } else {
      var k: nat :| i <= k <= j && Matches(b, env, i, k) && Iterates(b, n - 1, env, k, j);
      var rest := DropEmpties(b, n - 1, travels, env, k, j);
      if i < k {
        assert AgreesAt(b, env, i, k);
        m := rest + 1;
      } else {
        m := rest;
        if travels && m > 0 {
          EmptyCarried(b, m, env, i, j);
        }
      }
    }
  }

  lemma {:induction false} EmptyCarried(b: Ere, m: nat, env: Env, i: nat, j: nat)
    requires Agrees(b, env) && EmptyTravels(b, env)
    requires Matches(b, env, i, i) && Strides(b, m, env, i, j)
    ensures Matches(b, env, j, j)
    decreases m
  {
    if m > 0 {
      var k: nat :| i < k <= j && Cut(b, env, i, k) && Strides(b, m - 1, env, k, j);
      assert AgreesAt(b, env, i, k);
      EmptyCarried(b, m - 1, env, k, j);
    }
  }

  /** The cut is exact on every expression whose repetitions are steady. */
  lemma CutExact(e: Ere, env: Env, i: nat, j: nat)
    requires BoundsOk(e) && Steady(e, env)
    ensures Cut(e, env, i, j) <==> Matches(e, env, i, j)
  {
    if Cut(e, env, i, j) { CutSound(e, env, i, j); }
    if Matches(e, env, i, j) { CutComplete(e, env, i, j); }
  }

  /** Exactly when the cut is right about a repetition, given that it is about its body: when at
      most one iteration is asked for, or emptiness travels in the body. */
  lemma RepetitionExactIff(b: Ere, lo: nat, hi: nat, env: Env)
    requires BoundsOk(b) && Agrees(b, env) && WithinHi(lo, hi)
    ensures Agrees(Rep(b, lo, hi), env) <==> lo < 2 || EmptyTravels(b, env)
  {
    hide Cut, Matches;
    if lo < 2 || EmptyTravels(b, env) {
      forall i: nat, j: nat ensures AgreesAt(Rep(b, lo, hi), env, i, j) {
        if Cut(Rep(b, lo, hi), env, i, j) { CutSound(Rep(b, lo, hi), env, i, j); }
        if Matches(Rep(b, lo, hi), env, i, j) { RepetitionComplete(b, lo, hi, env, i, j); }
      }
    } else if Agrees(Rep(b, lo, hi), env) {
      forall p: nat, q: nat | Matches(b, env, p, p) && Matches(b, env, p, q) ensures Matches(b, env, q, q) {
        EmptyArrives(b, lo, hi, env, p, q);
      }
    }
  }

  /** One real iteration and empty ones make up a match of the repetition; if the cut has it too,
      it is an empty iteration at the end, or two strides and more, each shorter than the whole. */
  lemma {:induction false} EmptyArrives(b: Ere, lo: nat, hi: nat, env: Env, p: nat, q: nat)
    requires BoundsOk(b) && lo >= 2 && WithinHi(lo, hi) && Agrees(Rep(b, lo, hi), env)
    requires Matches(b, env, p, p) && Matches(b, env, p, q)
    ensures Matches(b, env, q, q)
    decreases q - p, 0
  {
    MatchesForward(b, env, p, q);
    OneThenEmpties(b, lo - 1, env, p, q);
    RepetitionMatches(b, lo, hi, env, p, q);
    assert AgreesAt(Rep(b, lo, hi), env, p, q);
    var n := CutRepetition(b, lo, hi, env, p, q);
    hide Matches, Cut, Agrees;
    if n < lo {
      CutSound(b, env, q, q);
    } else {
      var m := FirstStride(b, n, env, p, q);
      StridesBound(b, n - 1, env, m, q);
      CutSound(b, env, p, m);
      EmptyArrives(b, lo, hi, env, p, m);
      EmptyCarries(b, lo, hi, n - 1, env, m, q);
    }
  }

  lemma {:induction false} EmptyCarries(b: Ere, lo: nat, hi: nat, n: nat, env: Env, u: nat, q: nat)
    requires BoundsOk(b) && lo >= 2 && WithinHi(lo, hi) && Agrees(Rep(b, lo, hi), env)
    requires u <= q && Matches(b, env, u, u) && Strides(b, n, env, u, q)
    ensures Matches(b, env, q, q)
    decreases q - u, 1
  {
    hide Matches, Cut, Agrees;
    if n > 0 {
      var k := FirstStride(b, n, env, u, q);
      CutSound(b, env, u, k);
      EmptyArrives(b, lo, hi, env, u, k);
      EmptyCarries(b, lo, hi, n - 1, env, k, q);
    }
  }

  lemma FirstStride(b: Ere, n: nat, env: Env, i: nat, j: nat) returns (m: nat)
    requires n > 0 && Strides(b, n, env, i, j)
    ensures i < m <= j && Cut(b, env, i, m) && Strides(b, n - 1, env, m, j)
  {
    m :| i < m <= j && Cut(b, env, i, m) && Strides(b, n - 1, env, m, j);
  }

  lemma RepetitionMatches(b: Ere, n: nat, hi: nat, env: Env, i: nat, j: nat)
    requires WithinHi(n, hi) && Iterates(b, n, env, i, j)
    ensures Matches(Rep(b, n, hi), env, i, j)
  {
  }

  lemma CutRepetition(b: Ere, lo: nat, hi: nat, env: Env, i: nat, j: nat) returns (n: nat)
    requires Cut(Rep(b, lo, hi), env, i, j)
    ensures Strides(b, n, env, i, j) && (n >= lo || Cut(b, env, j, j))
  {
    n :| WithinHi(n, hi) && (n >= lo || (BelowHi(n, hi) && Cut(b, env, j, j))) && Strides(b, n, env, i, j);
  }

  lemma {:induction false} OneThenEmpties(b: Ere, n: nat, env: Env, p: nat, q: nat)
    requires p <= q && Matches(b, env, p, p) && Matches(b, env, p, q)
    ensures Iterates(b, n + 1, env, p, q)
  {
    if n == 0 {
      assert Iterates(b, 0, env, q, q);
    } else {
      OneThenEmpties(b, n - 1, env, p, q);
    }
  }

  // ----- a condition on the syntax alone

  /** Can `e` match empty at a position that is, or is not, a line start and a line end? */
  predicate Nullable(e: Ere, bol: bool, eol: bool) {
    match e
    case Empty => true
    case Bol => bol
    case Eol => eol
    case Cat(l, r) => Nullable(l, bol, eol) && Nullable(r, bol, eol)
    case Alt(l, r) => Nullable(l, bol, eol) || Nullable(r, bol, eol)
    case Rep(b, lo, _) => lo == 0 || Nullable(b, bol, eol)
    case _ => false
  }

  lemma {:induction false} NullableIsEmptyMatch(e: Ere, env: Env, i: nat)
    requires BoundsOk(e)
    ensures Matches(e, env, i, i) <==> Nullable(e, AtBol(env, i), AtEol(env, i))
    decreases e
  {
    match e
    case Cat(l, r) =>
      NullableIsEmptyMatch(l, env, i);
      NullableIsEmptyMatch(r, env, i);
    case Alt(l, r) =>
      NullableIsEmptyMatch(l, env, i);
      NullableIsEmptyMatch(r, env, i);
    case Rep(b, lo, hi) =>
      NullableIsEmptyMatch(b, env, i);
      if lo == 0 {
        assert Iterates(b, 0, env, i, i);
      } else if Matches(b, env, i, i) {
        OneThenEmpties(b, lo - 1, env, i, i);
      } else {
        forall n: nat | n > 0 ensures !Iterates(b, n, env, i, i) {}
      }
    case _ =>
  }

  /** Emptiness of `e` does not depend on where it is asked. */
  predicate Uniform(e: Ere) {
    Nullable(e, false, false) || !Nullable(e, true, true)
  }

  predicate AnchorFree(e: Ere) {
    match e
    case Bol => false
    case Eol => false
    case Cat(l, r) => AnchorFree(l) && AnchorFree(r)
    case Alt(l, r) => AnchorFree(l) && AnchorFree(r)
    case Rep(b, _, _) => AnchorFree(b)
    case _ => true
  }

  predicate UniformBodies(e: Ere) {
    match e
    case Cat(l, r) => UniformBodies(l) && UniformBodies(r)
    case Alt(l, r) => UniformBodies(l) && UniformBodies(r)
    case Rep(b, lo, _) => UniformBodies(b) && (lo >= 2 ==> Uniform(b))
    case _ => true
  }

  lemma {:induction e} NullableMonotone(e: Ere, bol: bool, eol: bool)
    ensures Nullable(e, false, false) ==> Nullable(e, bol, eol)
    ensures Nullable(e, bol, eol) ==> Nullable(e, true, true)
    ensures AnchorFree(e) ==> Uniform(e)
  {
  }

  lemma {:induction false} UniformBodiesAreSteady(e: Ere, env: Env)
    requires BoundsOk(e) && UniformBodies(e)
    ensures Steady(e, env)
  {
    match e
    case Cat(l, r) => UniformBodiesAreSteady(l, env); UniformBodiesAreSteady(r, env);
    case Alt(l, r) => UniformBodiesAreSteady(l, env); UniformBodiesAreSteady(r, env);
    case Rep(b, lo, _) =>
      UniformBodiesAreSteady(b, env);
      if Uniform(b) {
        forall p: nat, q: nat | Matches(b, env, p, p) && Matches(b, env, p, q) ensures Matches(b, env, q, q) {
          NullableIsEmptyMatch(b, env, p);
          NullableIsEmptyMatch(b, env, q);
          NullableMonotone(b, AtBol(env, p), AtEol(env, p));
          NullableMonotone(b, AtBol(env, q), AtEol(env, q));
        }
      }
    case _ =>
  }

  // ----- the side condition is not idle

  /** `(^|a){2}$` */
  const LINE_START_OR_A_TWICE: Ere := Cat(Rep(Alt(Bol, Lit('a')), 2, 2), Eol)

  lemma AnchoredBodyMatches(env: Env)
    requires env == Env(false, false, "a")
    ensures Matches(LINE_START_OR_A_TWICE, env, 0, 1)
  {
    var b := Alt(Bol, Lit('a'));
    assert Matches(b, env, 0, 0) && Matches(b, env, 0, 1);
    OneThenEmpties(b, 1, env, 0, 1);
    assert Matches(Rep(b, 2, 2), env, 0, 1) && Matches(Eol, env, 1, 1);
  }

  /** On the subject "a" the expression denotes the whole subject, as an empty match of `^`
      followed by the letter; cutting at the empty iteration finds nothing anywhere. */
  lemma AnchoredBodyLosesMatch(env: Env)
    requires env == Env(false, false, "a")
    ensures Matches(LINE_START_OR_A_TWICE, env, 0, 1)
    ensures forall i: nat, j: nat | i <= 1 :: !Cut(LINE_START_OR_A_TWICE, env, i, j)
  {
    AnchoredBodyMatches(env);
    forall i: nat, j: nat | i <= 1 ensures !Cut(LINE_START_OR_A_TWICE, env, i, j) {
      if Cut(LINE_START_OR_A_TWICE, env, i, j) {
        var m: nat :| i <= m <= j && Cut(Rep(Alt(Bol, Lit('a')), 2, 2), env, i, m) && Cut(Eol, env, m, j);
        assert m > 0;
        NoCutRepetition(env, i, m);
      }
    }
  }

  /** Past the start the body has no empty match, and two strides do not fit. */
  lemma NoCutRepetition(env: Env, i: nat, m: nat)
    requires env == Env(false, false, "a") && i <= 1 && m > 0
    ensures !Cut(Rep(Alt(Bol, Lit('a')), 2, 2), env, i, m)
  {
    var b := Alt(Bol, Lit('a'));
    if Cut(Rep(b, 2, 2), env, i, m) {
      var n: nat :| n <= 2 && (n >= 2 || (n < 2 && Cut(b, env, m, m))) && Strides(b, n, env, i, m);
      assert !Cut(b, env, m, m);
      hide Cut, Strides;
      StridesInsideSubject(b, n, env, i, m);
      StridesBound(b, n, env, i, m);
    }
  }

  lemma {:induction false} StridesInsideSubject(b: Ere, n: nat, env: Env, i: nat, j: nat)
    requires BoundsOk(b) && Strides(b, n, env, i, j) && i <= |env.subject|
    ensures j <= |env.subject|
  {
    StridesAreIterations(b, n, env, i, j);
    IteratesForward(b, n, env, i, j);
  }
}
