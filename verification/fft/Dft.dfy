/** The discrete Fourier transform as a sum, over an exact unit-circle map, and the
    identities a fast transform rests on. */
module Dft {
  import opened ComplexNumbers

  /** `turn(x)` is the point `x` turns round the unit circle: cosine and sine of `2*pi*x`. */
  type Turn = real -> C

  ghost predicate Adds(turn: Turn, x: real, y: real) {
    turn(x + y) == Mul(turn(x), turn(y))
  }

  ghost predicate Mirrors(turn: Turn, x: real) {
    Conj(turn(x)) == turn(-x)
  }

  ghost predicate IsTurn(turn: Turn) {
    && (forall x, y :: Adds(turn, x, y))
    && (forall x :: Mirrors(turn, x))
    && turn(0.5) == Neg(ONE)
  }

  /** The `a`-th power of the `n`-th root of unity. */
  function Root(turn: Turn, a: int, n: nat): C
    requires n > 0
  {
    turn(a as real / n as real)
  }

  lemma TurnSum(turn: Turn, x: real, y: real, z: real)
    requires IsTurn(turn) && x + y == z
    ensures turn(z) == Mul(turn(x), turn(y))
  {
    assert Adds(turn, x, y);
  }

  lemma TurnZero(turn: Turn)
    requires IsTurn(turn)
    ensures turn(0.0) == ONE
  {
    TurnSum(turn, 0.0, 0.5, 0.5);
    UnitIsOne(turn(0.0));
  }

  lemma TurnOne(turn: Turn)
    requires IsTurn(turn)
    ensures turn(1.0) == ONE
  {
    TurnSum(turn, 0.5, 0.5, 1.0);
    MinusOneSquared();
  }

  lemma TurnBackHalf(turn: Turn)
    requires IsTurn(turn)
    ensures turn(-0.5) == Neg(ONE)
  {
    assert Mirrors(turn, 0.5);
  }

  lemma RootAdd(turn: Turn, a: int, b: int, n: nat)
    requires IsTurn(turn) && n > 0
    ensures Root(turn, a + b, n) == Mul(Root(turn, a, n), Root(turn, b, n))
  {
    var x, y := a as real / n as real, b as real / n as real;
    assert (a + b) as real / n as real == x + y;
    assert Adds(turn, x, y);
  }

  lemma RootHalf(turn: Turn, a: int, n: nat)
    requires n > 0
    ensures Root(turn, 2 * a, 2 * n) == Root(turn, a, n)
  {
    assert (2 * a) as real / (2 * n) as real == a as real / n as real;
  }

  lemma RootConj(turn: Turn, a: int, n: nat)
    requires IsTurn(turn) && n > 0
    ensures Conj(Root(turn, a, n)) == Root(turn, -a, n)
  {
    var x := a as real / n as real;
    assert (-a) as real / n as real == -x;
    assert Mirrors(turn, x);
  }

  lemma RootZero(turn: Turn, n: nat)
    requires IsTurn(turn) && n > 0
    ensures Root(turn, 0, n) == ONE
  {
    TurnZero(turn);
    assert 0 as real / n as real == 0.0;
  }

  lemma RootMinusOne(turn: Turn, n: nat)
    requires IsTurn(turn) && n > 0
    ensures Root(turn, n, 2 * n) == Neg(ONE) && Root(turn, 0 - n, 2 * n) == Neg(ONE)
  {
    TurnBackHalf(turn);
    assert n as real / (2 * n) as real == 0.5;
    assert (0 - n) as real / (2 * n) as real == -0.5;
  }

  /** Whole turns change nothing. */
  lemma {:induction false} RootPeriod(turn: Turn, a: int, t: int, n: nat)
    requires IsTurn(turn) && n > 0
    ensures Root(turn, a + t * n, n) == Root(turn, a, n)
    decreases if t < 0 then -t else t
  {
    TurnOne(turn);
    assert n as real / n as real == 1.0;
    assert Root(turn, n, n) == ONE;
    if t > 0 {
      RootPeriod(turn, a, t - 1, n);
      RootAdd(turn, a + (t - 1) * n, n, n);
      assert a + (t - 1) * n + n == a + t * n;
    } else if t < 0 {
      RootPeriod(turn, a, t + 1, n);
      RootAdd(turn, a + t * n, n, n);
      assert a + t * n + n == a + (t + 1) * n;
    }
  }

  // ----- the transform

  function Term(turn: Turn, x: nat -> C, n: nat, dir: int, k: int): nat -> C
    requires n > 0
  {
    (j: nat) => Mul(x(j), Root(turn, dir * j * k, n))
  }

  /** The `k`-th bin of the `n`-point transform; `dir` is -1 forward, +1 inverse. */
  function Bin(turn: Turn, x: nat -> C, n: nat, dir: int, k: int): C
    requires n > 0
  {
    Sum(Term(turn, x, n, dir, k), n)
  }

  function Every(x: nat -> C, stride: nat, off: nat): nat -> C {
    (j: nat) => x(j * stride + off)
  }

  lemma BinEq(turn: Turn, x: nat -> C, y: nat -> C, n: nat, dir: int, k: int)
    requires n > 0 && forall j: nat :: j < n ==> x(j) == y(j)
    ensures Bin(turn, x, n, dir, k) == Bin(turn, y, n, dir, k)
  {
    SumEq(Term(turn, x, n, dir, k), Term(turn, y, n, dir, k), n);
  }

  lemma BinPeriod(turn: Turn, x: nat -> C, n: nat, dir: int, k: int)
    requires IsTurn(turn) && n > 0
    ensures Bin(turn, x, n, dir, k + n) == Bin(turn, x, n, dir, k)
  {
    forall j: nat | j < n ensures Term(turn, x, n, dir, k + n)(j) == Term(turn, x, n, dir, k)(j) {
      assert dir * j * (k + n) == dir * j * k + (dir * j) * n;
      RootPeriod(turn, dir * j * k, dir * j, n);
    }
    SumEq(Term(turn, x, n, dir, k + n), Term(turn, x, n, dir, k), n);
  }

  /** Decimation in time: a transform of `2n` points from two of `n`. */
  lemma BinSplit(turn: Turn, x: nat -> C, n: nat, dir: int, k: int)
    requires IsTurn(turn) && n > 0
    ensures Bin(turn, x, 2 * n, dir, k) ==
            Add(Bin(turn, Every(x, 2, 0), n, dir, k),
                Mul(Root(turn, dir * k, 2 * n), Bin(turn, Every(x, 2, 1), n, dir, k)))
  {
    var f := Term(turn, x, 2 * n, dir, k);
    var even := Term(turn, Every(x, 2, 0), n, dir, k);
    var odd := Term(turn, Every(x, 2, 1), n, dir, k);
    var w := Root(turn, dir * k, 2 * n);
    var scaled := (j: nat) => Mul(w, odd(j));
    forall j: nat | j < n ensures even(j) == f(2 * j) && scaled(j) == f(2 * j + 1) {
      EvenTerm(turn, x, n, dir, k, j);
      OddTerm(turn, x, n, dir, k, j);
    }
    SumEvenOdd(f, even, scaled, n);
    SumMul(w, odd, scaled, n);
  }

  lemma EvenTerm(turn: Turn, x: nat -> C, n: nat, dir: int, k: int, j: nat)
    requires n > 0
    ensures Term(turn, Every(x, 2, 0), n, dir, k)(j) == Term(turn, x, 2 * n, dir, k)(2 * j)
  {
    assert dir * (2 * j) * k == 2 * (dir * j * k);
    RootHalf(turn, dir * j * k, n);
  }

  lemma OddTerm(turn: Turn, x: nat -> C, n: nat, dir: int, k: int, j: nat)
    requires IsTurn(turn) && n > 0
    ensures Mul(Root(turn, dir * k, 2 * n), Term(turn, Every(x, 2, 1), n, dir, k)(j)) ==
            Term(turn, x, 2 * n, dir, k)(2 * j + 1)
  {
    var w, r, v := Root(turn, dir * k, 2 * n), Root(turn, dir * j * k, n), x(2 * j + 1);
    assert dir * (2 * j + 1) * k == dir * k + 2 * (dir * j * k);
    RootHalf(turn, dir * j * k, n);
    RootAdd(turn, dir * k, 2 * (dir * j * k), 2 * n);
    assert Every(x, 2, 1)(j) == v;
    MulAssoc(w, v, r);
    MulComm(w, v);
    MulAssoc(v, w, r);
  }

  /** The butterfly: bins `k` and `k + n` of the whole share bin `k` of the parts. */
  lemma Butterfly(turn: Turn, x: nat -> C, n: nat, dir: int, k: int)
    requires IsTurn(turn) && n > 0 && (dir == 1 || dir == -1)
    ensures var u := Bin(turn, Every(x, 2, 0), n, dir, k);
            var v := Mul(Bin(turn, Every(x, 2, 1), n, dir, k), Root(turn, dir * k, 2 * n));
            Bin(turn, x, 2 * n, dir, k) == Add(u, v) && Bin(turn, x, 2 * n, dir, k + n) == Sub(u, v)
  {
    hide Bin, Root;
    var e, o := Every(x, 2, 0), Every(x, 2, 1);
    BinSplit(turn, x, n, dir, k);
    BinSplit(turn, x, n, dir, k + n);
    BinPeriod(turn, e, n, dir, k);
    BinPeriod(turn, o, n, dir, k);
    RootOpposite(turn, n, dir, k);
    var w, b := Root(turn, dir * k, 2 * n), Bin(turn, o, n, dir, k);
    MulComm(w, b);
    MulNeg(w, b);
  }

  lemma RootOpposite(turn: Turn, n: nat, dir: int, k: int)
    requires IsTurn(turn) && n > 0 && (dir == 1 || dir == -1)
    ensures Root(turn, dir * (k + n), 2 * n) == Neg(Root(turn, dir * k, 2 * n))
  {
    assert dir * (k + n) == dir * k + dir * n;
    RootAdd(turn, dir * k, dir * n, 2 * n);
    RootMinusOne(turn, n);
    MulMinusOne(Root(turn, dir * k, 2 * n));
  }
}
