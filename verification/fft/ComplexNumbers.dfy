/** Complex numbers as pairs of reals, and finite sums of them. */
module ComplexNumbers {

  datatype C = C(re: real, im: real)

  const ZERO: C := C(0.0, 0.0)
  const ONE: C := C(1.0, 0.0)

  function Add(a: C, b: C): C { C(a.re + b.re, a.im + b.im) }
  function Sub(a: C, b: C): C { C(a.re - b.re, a.im - b.im) }
  function Neg(a: C): C { C(-a.re, -a.im) }
  function Mul(a: C, b: C): C { C(a.re * b.re - a.im * b.im, a.re * b.im + a.im * b.re) }
  function Conj(a: C): C { C(a.re, -a.im) }
  function Scale(t: real, a: C): C { C(t * a.re, t * a.im) }
  function Real(t: real): C { C(t, 0.0) }
  function TimesI(a: C): C { C(-a.im, a.re) }

  lemma MulAssoc(a: C, b: C, c: C)
    ensures Mul(a, Mul(b, c)) == Mul(Mul(a, b), c)
  {
  }

  lemma MulComm(a: C, b: C)
    ensures Mul(a, b) == Mul(b, a)
  {
  }

  lemma MulAdd(a: C, b: C, c: C)
    ensures Mul(a, Add(b, c)) == Add(Mul(a, b), Mul(a, c))
    ensures Mul(Add(b, c), a) == Add(Mul(b, a), Mul(c, a))
  {
  }

  lemma MulConj(a: C, b: C)
    ensures Conj(Mul(a, b)) == Mul(Conj(a), Conj(b))
  {
  }

  lemma MulMinusOne(a: C)
    ensures Mul(a, Neg(ONE)) == Neg(a) && Mul(Neg(ONE), a) == Neg(a)
  {
  }

  lemma MinusOneSquared()
    ensures Mul(Neg(ONE), Neg(ONE)) == ONE
  {
  }

  lemma UnitIsOne(z: C)
    requires Mul(z, Neg(ONE)) == Neg(ONE)
    ensures z == ONE
  {
    MulMinusOne(z);
  }

  lemma MulNeg(a: C, b: C)
    ensures Mul(Neg(a), b) == Neg(Mul(a, b))
  {
  }

  lemma MulOne(a: C)
    ensures Mul(a, ONE) == a && Mul(ONE, a) == a
  {
  }

  // ----- sums

  function Sum(f: nat -> C, n: nat): C {
    if n == 0 then ZERO else Add(Sum(f, n - 1), f(n - 1))
  }

  lemma {:induction false} SumEq(f: nat -> C, g: nat -> C, n: nat)
    requires forall i: nat :: i < n ==> f(i) == g(i)
    ensures Sum(f, n) == Sum(g, n)
  {
    if n > 0 { SumEq(f, g, n - 1); }
  }

  lemma {:induction false} SumAdd(f: nat -> C, g: nat -> C, h: nat -> C, n: nat)
    requires forall i: nat :: i < n ==> h(i) == Add(f(i), g(i))
    ensures Sum(h, n) == Add(Sum(f, n), Sum(g, n))
  {
    if n > 0 { SumAdd(f, g, h, n - 1); }
  }

  lemma {:induction false} SumMul(a: C, f: nat -> C, h: nat -> C, n: nat)
    requires forall i: nat :: i < n ==> h(i) == Mul(a, f(i))
    ensures Sum(h, n) == Mul(a, Sum(f, n))
  {
    if n > 0 {
      SumMul(a, f, h, n - 1);
      MulAdd(a, Sum(f, n - 1), f(n - 1));
    }
  }

  lemma {:induction false} SumConj(f: nat -> C, h: nat -> C, n: nat)
    requires forall i: nat :: i < n ==> h(i) == Conj(f(i))
    ensures Sum(h, n) == Conj(Sum(f, n))
  {
    if n > 0 { SumConj(f, h, n - 1); }
  }

  /** A sum of `2n` terms by even and odd index. */
  lemma {:induction false} SumEvenOdd(f: nat -> C, even: nat -> C, odd: nat -> C, n: nat)
    requires forall i: nat :: i < n ==> even(i) == f(2 * i) && odd(i) == f(2 * i + 1)
    ensures Sum(f, 2 * n) == Add(Sum(even, n), Sum(odd, n))
  {
    hide Sum, Add;
    if n > 0 {
      var m: nat := n - 1;
      SumEvenOdd(f, even, odd, m);
      SumNext(f, 2 * m);
      SumNext(f, 2 * m + 1);
      SumNext(even, m);
      SumNext(odd, m);
      assert even(m) == f(2 * m) && odd(m) == f(2 * m + 1);
      Interchange(Sum(even, m), Sum(odd, m), even(m), odd(m));
    } else {
      SumNone(f);
      SumNone(even);
      SumNone(odd);
    }
  }

  lemma SumNext(f: nat -> C, n: nat)
    ensures Sum(f, n + 1) == Add(Sum(f, n), f(n))
  {
  }

  lemma SumNone(f: nat -> C)
    ensures Sum(f, 0) == ZERO && Add(ZERO, ZERO) == ZERO
  {
  }

  lemma Interchange(a: C, b: C, x: C, y: C)
    ensures Add(Add(Add(a, b), x), y) == Add(Add(a, x), Add(b, y))
  {
  }

  /** A sum of `2n` terms by lower and upper half. */
  lemma {:induction false} SumHalves(f: nat -> C, upper: nat -> C, n: nat, m: nat)
    requires forall i: nat :: i < m ==> upper(i) == f(n + i)
    ensures Sum(f, n + m) == Add(Sum(f, n), Sum(upper, m))
  {
    if m > 0 { SumHalves(f, upper, n, m - 1); }
  }
}
