/** Inversion of the transform, and the packing of a real signal's spectrum into half the slots. */
module RealDft {
  import opened ComplexNumbers
  import opened Dft
  import opened BitReversal

  // ----- forward then inverse is multiplication by the length

  function Bins(turn: Turn, x: nat -> C, n: nat, dir: int): nat -> C
    requires n > 0
  {
    (k: nat) => Bin(turn, x, n, dir, k)
  }

  /** The inverse transform of the forward transform, by decimation: no orthogonality sum is needed. */
  lemma {:induction false} Inversion(turn: Turn, x: nat -> C, l: nat, j: nat)
    requires IsTurn(turn) && j < Pow2(l)
    ensures Bin(turn, Bins(turn, x, Pow2(l), -1), Pow2(l), 1, j) == Scale(Pow2(l) as real, x(j))
    decreases l
  {
    if l == 0 {
      InversionOfOne(turn, x);
    } else {
      hide Bin, Bins, Scale, Every, IsTurn;
      var h, q, odd := Pow2(l - 1), j / 2, j % 2;
      Inversion(turn, Every(x, 2, odd), l - 1, q);
      InversionStep(turn, x, h, q, odd);
    }
  }

  lemma InversionStep(turn: Turn, x: nat -> C, h: nat, q: nat, odd: nat)
    requires IsTurn(turn) && h > 0 && odd < 2
    requires Bin(turn, Bins(turn, Every(x, 2, odd), h, -1), h, 1, q) == Scale(h as real, Every(x, 2, odd)(q))
    ensures Bin(turn, Bins(turn, x, 2 * h, -1), 2 * h, 1, 2 * q + odd) == Scale((2 * h) as real, x(2 * q + odd))
  {
    InverseHalf(turn, x, h, q, odd);
    ScaleTwice(h as real, x(2 * q + odd));
  }

  lemma ScaleTwice(t: real, a: C)
    ensures Scale(2.0, Scale(t, a)) == Scale(2.0 * t, a)
  {
  }

  lemma InversionOfOne(turn: Turn, x: nat -> C)
    requires IsTurn(turn)
    ensures Bin(turn, Bins(turn, x, 1, -1), 1, 1, 0) == Scale(1.0, x(0))
  {
    BinOfOne(turn, x, -1);
    BinOfOne(turn, Bins(turn, x, 1, -1), 1);
  }

  lemma BinOfOne(turn: Turn, x: nat -> C, dir: int)
    requires IsTurn(turn)
    ensures Bin(turn, x, 1, dir, 0) == x(0)
  {
    RootZero(turn, 1);
    MulOne(x(0));
    assert dir * 0 * 0 == 0;
    assert Term(turn, x, 1, dir, 0)(0) == x(0);
    assert Sum(Term(turn, x, 1, dir, 0), 1) == Add(Sum(Term(turn, x, 1, dir, 0), 0), x(0));
  }

  /** Folding the two halves of the spectrum together leaves twice one decimated part's inverse. */
  lemma InverseHalf(turn: Turn, x: nat -> C, h: nat, q: nat, odd: nat)
    requires IsTurn(turn) && h > 0 && odd < 2
    ensures Bin(turn, Bins(turn, x, 2 * h, -1), 2 * h, 1, 2 * q + odd) ==
            Scale(2.0, Bin(turn, Bins(turn, Every(x, 2, odd), h, -1), h, 1, q))
  {
    hide Root, Mul, Scale, Every, Term, Bins, IsTurn, Sum;
    var n, j := 2 * h, 2 * q + odd;
    var bins := Bins(turn, x, n, -1);
    var f := Term(turn, bins, n, 1, j);
    var upper := (k: nat) => f(h + k);
    var both := (k: nat) => Add(f(k), upper(k));
    var g := Term(turn, Bins(turn, Every(x, 2, odd), h, -1), h, 1, q);
    SumHalves(f, upper, h, h);
    SumAdd(f, upper, both, h);
    forall k: nat | k < h ensures both(k) == Mul(Real(2.0), g(k)) {
      FoldedTerm(turn, x, h, q, odd, k);
      ScaleAsMul(2.0, g(k));
    }
    SumMul(Real(2.0), g, both, h);
    ScaleAsMul(2.0, Sum(g, h));
  }

  lemma ScaleAsMul(t: real, a: C)
    ensures Mul(Real(t), a) == Scale(t, a)
  {
  }

  lemma FoldedTerm(turn: Turn, x: nat -> C, h: nat, q: nat, odd: nat, k: nat)
    requires IsTurn(turn) && h > 0 && odd < 2
    ensures var f := Term(turn, Bins(turn, x, 2 * h, -1), 2 * h, 1, 2 * q + odd);
            Add(f(k), f(h + k)) == Scale(2.0, Term(turn, Bins(turn, Every(x, 2, odd), h, -1), h, 1, q)(k))
  {
    var n, j := 2 * h, 2 * q + odd;
    var f := Term(turn, Bins(turn, x, n, -1), n, 1, j);
    var u, b := Bin(turn, Every(x, 2, 0), h, -1, k), Bin(turn, Every(x, 2, 1), h, -1, k);
    var w := Root(turn, -1 * k, n);
    var v := Mul(b, w);
    Butterfly(turn, x, h, -1, k);
    var r, s := Root(turn, 1 * k * j, n), Root(turn, 1 * (h + k) * j, n);
    assert f(k) == Mul(Add(u, v), r);
    assert f(h + k) == Mul(Sub(u, v), s) by { assert k + h == h + k; }
    FoldRoots(turn, h, q, odd, k);
    var t := Root(turn, 1 * k * q, h);
    if odd == 0 {
      FoldEven(u, v, t);
    } else {
      assert r == Mul(Root(turn, k, n), t) && s == Neg(r);
      assert Mul(w, Root(turn, k, n)) == ONE by {
        RootAdd(turn, -1 * k, k, n);
        RootZero(turn, n);
      }
      FoldOdd(u, b, w, Root(turn, k, n), t);
    }
  }

  /** The inverse roots at `k` and `h + k`. */
  lemma FoldRoots(turn: Turn, h: nat, q: nat, odd: nat, k: nat)
    requires IsTurn(turn) && h > 0 && odd < 2
    ensures var (n, j, t) := (2 * h, 2 * q + odd, Root(turn, 1 * k * q, h));
            var (r, s) := (Root(turn, 1 * k * j, n), Root(turn, 1 * (h + k) * j, n));
            && (odd == 0 ==> r == t && s == t)
            && (odd == 1 ==> r == Mul(Root(turn, k, n), t) && s == Neg(r))
  {
    hide Root, IsTurn, Mul, Neg;
    var n, j := 2 * h, 2 * q + odd;
    RootHalf(turn, k * q, h);
    FoldIndices(h, q, odd, k);
    if odd == 0 {
      RootPeriod(turn, 2 * (k * q), q, n);
    } else {
      RootAdd(turn, k, 2 * (k * q), n);
      RootPeriod(turn, 1 * k * j + h, q, n);
      RootAdd(turn, 1 * k * j, h, n);
      RootMinusOne(turn, h);
      MulMinusOne(Root(turn, 1 * k * j, n));
    }
  }

  lemma FoldIndices(h: nat, q: nat, odd: nat, k: nat)
    requires odd < 2
    ensures 1 * k * q == k * q
    ensures odd == 0 ==> 1 * k * (2 * q + odd) == 2 * (k * q) && 1 * (h + k) * (2 * q + odd) == 2 * (k * q) + q * (2 * h)
    ensures odd == 1 ==> 1 * k * (2 * q + odd) == k + 2 * (k * q)
    ensures odd == 1 ==> 1 * (h + k) * (2 * q + odd) == (1 * k * (2 * q + odd) + h) + q * (2 * h)
  {
    assert (h + k) * q == h * q + k * q;
    assert k * (2 * q) == 2 * (k * q);
    assert (h + k) * (2 * q) == 2 * ((h + k) * q);
    assert q * (2 * h) == 2 * (h * q);
    if odd == 1 {
      assert k * (2 * q + 1) == k * (2 * q) + k;
      assert (h + k) * (2 * q + 1) == (h + k) * (2 * q) + (h + k);
    }
  }

  lemma FoldEven(u: C, v: C, t: C)
    ensures Add(Mul(Add(u, v), t), Mul(Sub(u, v), t)) == Scale(2.0, Mul(u, t))
  {
  }

  lemma FoldOdd(u: C, b: C, w: C, w': C, t: C)
    requires Mul(w, w') == ONE
    ensures Add(Mul(Add(u, Mul(b, w)), Mul(w', t)), Mul(Sub(u, Mul(b, w)), Neg(Mul(w', t)))) == Scale(2.0, Mul(b, t))
  {
    var r, v := Mul(w', t), Mul(b, w);
    SumTimesDifference(u, v, r);
    assert Mul(v, r) == Mul(b, t) by {
      MulAssoc(b, w, r);
      MulAssoc(w, w', t);
      MulOne(t);
    }
  }

  lemma SumTimesDifference(u: C, v: C, r: C)
    ensures Add(Mul(Add(u, v), r), Mul(Sub(u, v), Neg(r))) == Scale(2.0, Mul(v, r))
  {
  }

  // ----- real signals

  function AsComplex(x: nat -> real): nat -> C {
    (j: nat) => Real(x(j))
  }

  /** Even samples as real parts, odd samples as imaginary parts. */
  function Packed(x: nat -> real): nat -> C {
    (j: nat) => C(x(2 * j), x(2 * j + 1))
  }

  /** The spectrum of a real signal is conjugate-symmetric. */
  lemma BinMirror(turn: Turn, x: nat -> real, n: nat, k: int)
    requires IsTurn(turn) && n > 0
    ensures Conj(Bin(turn, AsComplex(x), n, -1, n - k)) == Bin(turn, AsComplex(x), n, -1, k)
  {
    var f, g := Term(turn, AsComplex(x), n, -1, n - k), Term(turn, AsComplex(x), n, -1, k);
    forall j: nat | j < n ensures g(j) == Conj(f(j)) {
      var a := -1 * j * (n - k);
      MulConj(Real(x(j)), Root(turn, a, n));
      RootConj(turn, a, n);
      assert -a == -1 * j * k + j * n;
      RootPeriod(turn, -1 * j * k, j, n);
      assert Conj(Real(x(j))) == Real(x(j));
    }
    SumConj(f, g, n);
  }

  lemma BinRealAtZero(turn: Turn, x: nat -> real, n: nat)
    requires IsTurn(turn) && n > 0
    ensures Bin(turn, AsComplex(x), n, -1, 0).im == 0.0
  {
    BinMirror(turn, x, n, 0);
    BinPeriod(turn, AsComplex(x), n, -1, 0);
  }

  /** The packed transform carries both halves: even bins plus `i` times odd bins. */
  lemma PackedBin(turn: Turn, x: nat -> real, h: nat, k: int)
    requires IsTurn(turn) && h > 0
    ensures Bin(turn, Packed(x), h, -1, k) ==
            Add(Bin(turn, Every(AsComplex(x), 2, 0), h, -1, k), TimesI(Bin(turn, Every(AsComplex(x), 2, 1), h, -1, k)))
  {
    var e := Term(turn, Every(AsComplex(x), 2, 0), h, -1, k);
    var o := Term(turn, Every(AsComplex(x), 2, 1), h, -1, k);
    var f := Term(turn, Packed(x), h, -1, k);
    var io := (j: nat) => Mul(C(0.0, 1.0), o(j));
    forall j: nat | j < h ensures f(j) == Add(e(j), io(j)) {
      PackedTerm(turn, x, h, k, j);
    }
    hide Term, Root, Every, Mul, Packed, AsComplex;
    SumAdd(e, io, f, h);
    SumMul(C(0.0, 1.0), o, io, h);
    MulByI(Sum(o, h));
  }

  lemma MulByI(a: C)
    ensures Mul(C(0.0, 1.0), a) == TimesI(a)
  {
  }

  lemma PackedTerm(turn: Turn, x: nat -> real, h: nat, k: int, j: nat)
    requires h > 0
    ensures Term(turn, Packed(x), h, -1, k)(j) ==
            Add(Term(turn, Every(AsComplex(x), 2, 0), h, -1, k)(j),
                Mul(C(0.0, 1.0), Term(turn, Every(AsComplex(x), 2, 1), h, -1, k)(j)))
  {
    PackedProduct(x(2 * j), x(2 * j + 1), Root(turn, -1 * j * k, h));
  }

  lemma PackedProduct(a: real, b: real, r: C)
    ensures Mul(C(a, b), r) == Add(Mul(Real(a), r), Mul(C(0.0, 1.0), Mul(Real(b), r)))
  {
  }

  function Evens(x: nat -> real): nat -> real { (j: nat) => x(2 * j) }
  function Odds(x: nat -> real): nat -> real { (j: nat) => x(2 * j + 1) }

  lemma PartsAreReal(turn: Turn, x: nat -> real, h: nat, k: int)
    requires h > 0
    ensures Bin(turn, Every(AsComplex(x), 2, 0), h, -1, k) == Bin(turn, AsComplex(Evens(x)), h, -1, k)
    ensures Bin(turn, Every(AsComplex(x), 2, 1), h, -1, k) == Bin(turn, AsComplex(Odds(x)), h, -1, k)
  {
    BinEq(turn, Every(AsComplex(x), 2, 0), AsComplex(Evens(x)), h, -1, k);
    BinEq(turn, Every(AsComplex(x), 2, 1), AsComplex(Odds(x)), h, -1, k);
  }

  function EvenPart(z: C, y: C): C { C(0.5 * (z.re + y.re), 0.5 * (z.im - y.im)) }
  function OddPart(z: C, y: C): C { C(0.5 * (z.im + y.im), -0.5 * (z.re - y.re)) }

  /** A true bin from the packed one, its mirror and the root between them. */
  function Recombined(z: C, y: C, w: C): C { Add(EvenPart(z, y), Mul(OddPart(z, y), w)) }

  /** Averaging a packed bin with its conjugate mirror gives the even samples' bin, differencing them the odd samples'. */
  lemma Separate(turn: Turn, x: nat -> real, h: nat, k: nat)
    requires IsTurn(turn) && 0 < k < h
    ensures var (z, y) := (Bin(turn, Packed(x), h, -1, k), Bin(turn, Packed(x), h, -1, h - k));
            && Bin(turn, Every(AsComplex(x), 2, 0), h, -1, k) == EvenPart(z, y)
            && Bin(turn, Every(AsComplex(x), 2, 1), h, -1, k) == OddPart(z, y)
  {
    PackedBin(turn, x, h, k);
    PackedBin(turn, x, h, h - k);
    PartsAreReal(turn, x, h, k);
    PartsAreReal(turn, x, h, h - k);
    BinMirror(turn, Evens(x), h, k);
    BinMirror(turn, Odds(x), h, k);
  }

  /** What slot `k` holds after a forward packed transform: twice the true bin, with the two
      real-valued bins sharing slot 0. */
  function HalfSpectrum(turn: Turn, x: nat -> real, n: nat): nat -> C
    requires n > 0
  {
    (k: nat) =>
      if k == 0 then C(2.0 * Bin(turn, AsComplex(x), n, -1, 0).re, 2.0 * Bin(turn, AsComplex(x), n, -1, n / 2).re)
      else Scale(2.0, Bin(turn, AsComplex(x), n, -1, k))
  }

  /** The whole spectrum a packed one stands for, by the symmetry of a real signal. */
  function Unpacked(g: nat -> C, n: nat): nat -> C {
    (k: nat) =>
      if k == 0 then Real(g(0).re)
      else if 2 * k == n then Real(g(0).im)
      else if 2 * k < n || k > n then g(k)
      else Conj(g(n - k))
  }

  lemma EndBins(turn: Turn, x: nat -> real, h: nat)
    requires IsTurn(turn) && h > 0
    ensures var z := Bin(turn, Packed(x), h, -1, 0);
            && Bin(turn, AsComplex(x), 2 * h, -1, 0) == Real(z.re + z.im)
            && Bin(turn, AsComplex(x), 2 * h, -1, h) == Real(z.re - z.im)
  {
    PackedBin(turn, x, h, 0);
    PartsAreReal(turn, x, h, 0);
    BinRealAtZero(turn, Evens(x), h);
    BinRealAtZero(turn, Odds(x), h);
    Butterfly(turn, AsComplex(x), h, -1, 0);
    RootZero(turn, 2 * h);
    MulOne(Bin(turn, Every(AsComplex(x), 2, 1), h, -1, 0));
    assert -1 * 0 == 0 && 0 + h == h;
  }

  lemma MiddleBin(turn: Turn, x: nat -> real, h: nat, k: nat)
    requires IsTurn(turn) && 0 < k < h
    ensures var (z, y, w) := (Bin(turn, Packed(x), h, -1, k), Bin(turn, Packed(x), h, -1, h - k), Root(turn, -1 * k, 2 * h));
            Bin(turn, AsComplex(x), 2 * h, -1, k) == Recombined(z, y, w)
  {
    hide Bin, Root, IsTurn, Packed, AsComplex, Every, EvenPart, OddPart, Mul, Add;
    Separate(turn, x, h, k);
    Butterfly(turn, AsComplex(x), h, -1, k);
  }

  /** Unpacking a forward transform gives twice the whole true spectrum. */
  lemma UnpackedIsSpectrum(turn: Turn, x: nat -> real, h: nat, k: nat)
    requires IsTurn(turn) && h > 0 && k < 2 * h
    ensures Unpacked(HalfSpectrum(turn, x, 2 * h), 2 * h)(k) == Scale(2.0, Bin(turn, AsComplex(x), 2 * h, -1, k))
  {
    hide Bin, IsTurn;
    var g := HalfSpectrum(turn, x, 2 * h);
    EndBins(turn, x, h);
    assert 2 * h / 2 == h;
    if k == 0 {
      assert Unpacked(g, 2 * h)(0) == Real(g(0).re);
    } else if k == h {
      assert Unpacked(g, 2 * h)(h) == Real(g(0).im);
    } else if k < h {
      assert Unpacked(g, 2 * h)(k) == g(k);
    } else {
      var m: nat := 2 * h - k;
      BinMirror(turn, x, 2 * h, k);
      assert Unpacked(g, 2 * h)(k) == Conj(g(m));
      ScaleConj(2.0, Bin(turn, AsComplex(x), 2 * h, -1, m));
    }
  }

  lemma ScaleConj(t: real, a: C)
    ensures Conj(Scale(t, a)) == Scale(t, Conj(a))
  {
  }

  /** Inverse after forward is multiplication by exactly `2n`. */
  lemma RoundTrip(turn: Turn, x: nat -> real, l: nat, j: nat)
    requires IsTurn(turn) && l > 0 && j < Pow2(l)
    ensures Bin(turn, Unpacked(HalfSpectrum(turn, x, Pow2(l)), Pow2(l)), Pow2(l), 1, j) == Scale((2 * Pow2(l)) as real, Real(x(j)))
  {
    hide Bin, Bins, Unpacked, HalfSpectrum, IsTurn, Mul, Scale;
    var n, h := Pow2(l), Pow2(l - 1);
    assert n == 2 * h;
    Inversion(turn, AsComplex(x), l, j);
    UnpackedInverse(turn, x, h, j);
    assert AsComplex(x)(j) == Real(x(j));
    TwiceScaled(Pow2(l), Real(x(j)));
  }

  lemma UnpackedInverse(turn: Turn, x: nat -> real, h: nat, j: nat)
    requires IsTurn(turn) && h > 0
    ensures Bin(turn, Unpacked(HalfSpectrum(turn, x, 2 * h), 2 * h), 2 * h, 1, j) ==
            Mul(Real(2.0), Bin(turn, Bins(turn, AsComplex(x), 2 * h, -1), 2 * h, 1, j))
  {
    var n := 2 * h;
    var g, bins := Unpacked(HalfSpectrum(turn, x, n), n), Bins(turn, AsComplex(x), n, -1);
    var f, f' := Term(turn, g, n, 1, j), Term(turn, bins, n, 1, j);
    forall k: nat | k < n ensures f(k) == Mul(Real(2.0), f'(k)) {
      UnpackedIsSpectrum(turn, x, h, k);
      ScaleTerm(2.0, bins(k), Root(turn, 1 * k * j, n));
    }
    hide Term, Root, Mul;
    SumMul(Real(2.0), f', f, n);
  }

  lemma ScaleTerm(t: real, a: C, r: C)
    ensures Mul(Scale(t, a), r) == Mul(Real(t), Mul(a, r))
  {
  }

  lemma TwiceScaled(n: nat, a: C)
    ensures Mul(Real(2.0), Scale(n as real, a)) == Scale((2 * n) as real, a)
  {
    ScaleAsMul(2.0, Scale(n as real, a));
    ScaleTwice(n as real, a);
    assert (2 * n) as real == 2.0 * n as real;
  }
}
