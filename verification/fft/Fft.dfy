/** The in-place iterative radix-2 transform, proved to compute the DFT sum. */
module Fft {
  import opened ComplexNumbers
  import opened Dft
  import opened BitReversal

  /** Where position `p` has its value from once the pairs below `i` are swapped. */
  function SwapSource(l: nat, i: nat, p: nat): nat {
    if p < i || Rev(l, p) < i then Rev(l, p) else p
  }

  lemma SwapStep(l: nat, i: nat, p: nat)
    requires i < Pow2(l) && p < Pow2(l)
    ensures var j := Rev(l, i);
            SwapSource(l, i + 1, p) ==
            SwapSource(l, i, if i < j && p == i then j else if i < j && p == j then i else p)
  {
    RevInvolutive(l, i);
    RevInvolutive(l, p);
  }

  lemma SwapEnds(l: nat, p: nat)
    requires p < Pow2(l)
    ensures SwapSource(l, 1, p) == p && SwapSource(l, Pow2(l), p) == Rev(l, p)
  {
    RevOfZero(l);
    RevInvolutive(l, p);
  }

  ghost predicate Drawn(s: seq<real>, s0: seq<real>, l: nat, i: nat)
    requires Pow2(l) <= |s| && Pow2(l) <= |s0|
  {
    forall p: nat, q: nat :: p < Pow2(l) && q < Pow2(l) && q == SwapSource(l, i, p) ==> s[p] == s0[q]
  }

  function Swapped(s: seq<real>, i: nat, j: nat): seq<real>
    requires i < |s| && j < |s|
  {
    s[i := s[j]][j := s[i]]
  }

  method Swap(a: array<real>, i: nat, j: nat)
    requires i < a.Length && j < a.Length
    modifies a
    ensures a[..] == Swapped(old(a[..]), i, j)
  {
    a[i], a[j] := a[j], a[i];
  }

  lemma SwapKeepsDrawn(s: seq<real>, s0: seq<real>, l: nat, i: nat)
    requires Pow2(l) <= |s| && Pow2(l) <= |s0| && i < Pow2(l) && Drawn(s, s0, l, i)
    ensures var j := Rev(l, i);
            Drawn(if i < j then Swapped(s, i, j) else s, s0, l, i + 1)
  {
    var j := Rev(l, i);
    var s' := if i < j then Swapped(s, i, j) else s;
    forall p: nat, q: nat | p < Pow2(l) && q < Pow2(l) && q == SwapSource(l, i + 1, p) ensures s'[p] == s0[q] {
      SwapStep(l, i, p);
    }
  }

  lemma DrawnEnds(s: seq<real>, l: nat)
    requires Pow2(l) <= |s|
    ensures Drawn(s, s, l, 1)
  {
    forall p: nat | p < Pow2(l) ensures SwapSource(l, 1, p) == p { SwapEnds(l, p); }
  }

  lemma AllDrawn(s: seq<real>, s0: seq<real>, l: nat)
    requires Pow2(l) <= |s| && Pow2(l) <= |s0| && Drawn(s, s0, l, Pow2(l))
    ensures forall p: nat :: p < Pow2(l) ==> s[p] == s0[Rev(l, p)]
  {
    forall p: nat | p < Pow2(l) ensures s[p] == s0[Rev(l, p)] {
      SwapEnds(l, p);
      RevInvolutive(l, p);
    }
  }

  /** Swap every pair of positions that are each other's bit reversal. */
  method BitReverse(re: array<real>, im: array<real>, m: nat, ghost l: nat)
    requires re != im && m == Pow2(l) && m <= re.Length && m <= im.Length
    modifies re, im
    ensures forall p: nat :: p < m ==> re[..][p] == old(re[..])[Rev(l, p)] && im[..][p] == old(im[..])[Rev(l, p)]
    ensures re[m..] == old(re[m..]) && im[m..] == old(im[m..])
  {
    hide Rev, SwapSource, Drawn;
    var i, j := 1, 0;
    ghost var re0, im0 := re[..], im[..];
    RevOfZero(l);
    DrawnEnds(re0, l);
    DrawnEnds(im0, l);
    while i < m
      invariant 1 <= i <= m && j == Rev(l, i - 1)
      invariant Drawn(re[..], re0, l, i) && Drawn(im[..], im0, l, i)
      invariant re[m..] == re0[m..] && im[m..] == im0[m..]
    {
      j := NextReversed(m, l, i - 1, j);
      SwapKeepsDrawn(re[..], re0, l, i);
      SwapKeepsDrawn(im[..], im0, l, i);
      if i < j {
        ghost var re1, im1 := re[..], im[..];
        Swap(re, i, j);
        Swap(im, i, j);
        assert re[m..] == re1[m..] && im[m..] == im1[m..];
      }
      i := i + 1;
    }
    AllDrawn(re[..], re0, l);
    AllDrawn(im[..], im0, l);
  }

  lemma {:induction false} RevOfZero(l: nat)
    ensures Rev(l, 0) == 0
  {
    if l > 0 { RevOfZero(l - 1); }
  }

  // ----- what the array holds between stages

  /** After `l` stages, position `p` holds its bin of the transform of its block's samples. */
  ghost function BlockBin(turn: Turn, x: nat -> C, total: nat, l: nat, dir: int, p: nat): C
    requires l <= total
  {
    Bin(turn, Every(x, Pow2(total - l), Rev(total - l, Quot(p, Pow2(l)))), Pow2(l), dir, Rem(p, Pow2(l)))
  }

  ghost predicate StageDone(turn: Turn, x: nat -> C, total: nat, l: nat, dir: int, re: seq<real>, im: seq<real>)
    requires l <= total && Pow2(total) <= |re| && Pow2(total) <= |im|
  {
    forall p: nat :: p < Pow2(total) ==> C(re[p], im[p]) == BlockBin(turn, x, total, l, dir, p)
  }

  /** The two positions of column `k` in the `c`-th block of size `2 * h`. */
  lemma PairPositions(h: nat, c: nat, k: nat)
    requires k < h
    ensures var a := c * (2 * h) + k;
            && Quot(a, h) == 2 * c && Rem(a, h) == k && Quot(a + h, h) == 2 * c + 1 && Rem(a + h, h) == k
            && Quot(a, 2 * h) == c && Rem(a, 2 * h) == k && Quot(a + h, 2 * h) == c && Rem(a + h, 2 * h) == k + h
  {
    var a := c * (2 * h) + k;
    assert a == (2 * c) * h + k && a + h == (2 * c + 1) * h + k;
    DivUnique(a, h, 2 * c, k);
    DivUnique(a + h, h, 2 * c + 1, k);
    DivUnique(a, 2 * h, c, k);
    DivUnique(a + h, 2 * h, c, k + h);
  }

  /** One stage, at one pair of positions. */
  lemma StagePair(turn: Turn, x: nat -> C, total: nat, l: nat, dir: int, c: nat, k: nat, a: nat)
    requires IsTurn(turn) && (dir == 1 || dir == -1) && l < total && k < Pow2(l) && a == c * (2 * Pow2(l)) + k
    ensures var h := Pow2(l);
            var u, v := BlockBin(turn, x, total, l, dir, a),
                        Mul(BlockBin(turn, x, total, l, dir, a + h), Root(turn, dir * k, 2 * h));
            BlockBin(turn, x, total, l + 1, dir, a) == Add(u, v) && BlockBin(turn, x, total, l + 1, dir, a + h) == Sub(u, v)
  {
    hide BlockBin, Bin, Root, Mul, Add, Sub, Every, Rev, Quot, Rem, IsTurn;
    var h, rest := Pow2(l), total - l - 1;
    PairPositions(h, c, k);
    BlockBinIs(turn, x, total, l, dir, a, 2 * c, k);
    BlockBinIs(turn, x, total, l, dir, a + h, 2 * c + 1, k);
    BlockBinIs(turn, x, total, l + 1, dir, a, c, k);
    BlockBinIs(turn, x, total, l + 1, dir, a + h, c, k + h);
    BlockButterfly(turn, x, rest, c, h, dir, k);
  }

  lemma BlockButterfly(turn: Turn, x: nat -> C, rest: nat, c: nat, h: nat, dir: int, k: nat)
    requires IsTurn(turn) && (dir == 1 || dir == -1) && h > 0
    ensures var y := Every(x, Pow2(rest), Rev(rest, c));
            var u := Bin(turn, Every(x, Pow2(rest + 1), Rev(rest + 1, 2 * c)), h, dir, k);
            var v := Mul(Bin(turn, Every(x, Pow2(rest + 1), Rev(rest + 1, 2 * c + 1)), h, dir, k), Root(turn, dir * k, 2 * h));
            Bin(turn, y, 2 * h, dir, k) == Add(u, v) && Bin(turn, y, 2 * h, dir, k + h) == Sub(u, v)
  {
    hide *;
    Butterfly(turn, Every(x, Pow2(rest), Rev(rest, c)), h, dir, k);
    EveryOther(turn, x, rest, c, h, dir, k);
  }

  lemma BlockBinIs(turn: Turn, x: nat -> C, total: nat, l: nat, dir: int, p: nat, c: nat, k: nat)
    requires l <= total && Quot(p, Pow2(l)) == c && Rem(p, Pow2(l)) == k
    ensures BlockBin(turn, x, total, l, dir, p) == Bin(turn, Every(x, Pow2(total - l), Rev(total - l, c)), Pow2(l), dir, k)
  {
  }

  lemma DoubleStride(j: nat, s: nat, o: nat)
    ensures (j * 2 + 0) * s + o == j * (2 * s) + o && (j * 2 + 1) * s + o == j * (2 * s) + (s + o)
  {
  }

  /** Every second of every `s`th is every `2 * s`th. */
  lemma EveryTwo(x: nat -> C, s: nat, o: nat, j: nat)
    ensures Every(Every(x, s, o), 2, 0)(j) == Every(x, 2 * s, o)(j)
    ensures Every(Every(x, s, o), 2, 1)(j) == Every(x, 2 * s, s + o)(j)
  {
    DoubleStride(j, s, o);
    assert Every(Every(x, s, o), 2, 0)(j) == Every(x, s, o)(j * 2 + 0) == x((j * 2 + 0) * s + o);
    assert Every(Every(x, s, o), 2, 1)(j) == Every(x, s, o)(j * 2 + 1) == x((j * 2 + 1) * s + o);
  }

  /** The even and odd samples of a block are the blocks of the stage before. */
  lemma EveryOther(turn: Turn, x: nat -> C, rest: nat, c: nat, h: nat, dir: int, k: int)
    requires h > 0
    ensures var y := Every(x, Pow2(rest), Rev(rest, c));
            && Bin(turn, Every(y, 2, 0), h, dir, k) == Bin(turn, Every(x, Pow2(rest + 1), Rev(rest + 1, 2 * c)), h, dir, k)
            && Bin(turn, Every(y, 2, 1), h, dir, k) == Bin(turn, Every(x, Pow2(rest + 1), Rev(rest + 1, 2 * c + 1)), h, dir, k)
  {
    var s, o := Pow2(rest), Rev(rest, c);
    var y := Every(x, s, o);
    assert Rev(rest + 1, 2 * c) == o && Rev(rest + 1, 2 * c + 1) == s + o;
    var even, odd := Every(x, Pow2(rest + 1), o), Every(x, Pow2(rest + 1), s + o);
    forall j: nat ensures Every(y, 2, 0)(j) == even(j) && Every(y, 2, 1)(j) == odd(j) {
      EveryTwo(x, s, o, j);
    }
    hide Bin;
    BinEq(turn, Every(y, 2, 0), even, h, dir, k);
    BinEq(turn, Every(y, 2, 1), odd, h, dir, k);
  }

  // ----- one column of butterflies: the same twiddle in every block

  /** Column `k` has been done in every block that starts before `i`. */
  predicate Touched(p: nat, h: nat, k: nat, i: nat)
    requires h > 0
  {
    var q := Rem(p, 2 * h);
    Rem(q, h) < k || (Rem(q, h) == k && p - q < i)
  }

  lemma TouchedGrows(p: nat, h: nat, k: nat, c: nat)
    requires h > 0 && k < h
    ensures var a := c * (2 * h) + k;
            Touched(p, h, k, (c + 1) * (2 * h)) <==> Touched(p, h, k, c * (2 * h)) || p == a || p == a + h
  {
    var q, d := Rem(p, 2 * h), Quot(p, 2 * h);
    var a := c * (2 * h) + k;
    DivParts(p, 2 * h);
    DivUnique(a, 2 * h, c, k);
    DivUnique(a + h, 2 * h, c, k + h);
    if q < h { DivUnique(q, h, 0, q); } else { DivUnique(q, h, 1, q - h); }
    DivUnique(k, h, 0, k);
    DivUnique(k + h, h, 1, k);
    if d < c { MulLe(d + 1, c, 2 * h); }
    if d > c { MulLe(c + 1, d, 2 * h); }
  }

  lemma TouchedEnds(p: nat, h: nat, k: nat, m: nat)
    requires h > 0 && p < m
    ensures Touched(p, h, k, m) == Touched(p, h, k + 1, 0)
    ensures !Touched(p, h, 0, 0) && Touched(p, h, h, 0)
  {
  }

  ghost predicate Between(turn: Turn, x: nat -> C, total: nat, l: nat, dir: int, re: seq<real>, im: seq<real>, k: nat, i: nat)
    requires l < total && Pow2(total) <= |re| && Pow2(total) <= |im|
  {
    forall p: nat :: p < Pow2(total) ==>
      C(re[p], im[p]) == BlockBin(turn, x, total, if Touched(p, Pow2(l), k, i) then l + 1 else l, dir, p)
  }

  function Put(s: seq<real>, a: nat, u: real, b: nat, v: real): seq<real>
    requires a < |s| && b < |s|
  {
    s[a := u][b := v]
  }

  /** One butterfly, in place. */
  method Pair(re: array<real>, im: array<real>, a: nat, b: nat, c: real, s: real)
    requires re != im && a < re.Length && b < re.Length && a < im.Length && b < im.Length && a != b
    modifies re, im
    ensures var v := Mul(C(old(re[b]), old(im[b])), C(c, s));
            && re[..] == Put(old(re[..]), a, old(re[a]) + v.re, b, old(re[a]) - v.re)
            && im[..] == Put(old(im[..]), a, old(im[a]) + v.im, b, old(im[a]) - v.im)
  {
    var ur, ui := re[a], im[a];
    var vr := re[b] * c - im[b] * s;
    var vi := re[b] * s + im[b] * c;
    re[a], im[a] := ur + vr, ui + vi;
    re[b], im[b] := ur - vr, ui - vi;
    assert C(vr, vi) == Mul(C(old(re[b]), old(im[b])), C(c, s));
    assert re[..] == Put(old(re[..]), a, ur + vr, b, ur - vr);
    assert im[..] == Put(old(im[..]), a, ui + vi, b, ui - vi);
  }

  /** A butterfly on block `c` moves column `k` on by one block. */
  lemma PairKeeps(turn: Turn, x: nat -> C, total: nat, l: nat, dir: int, re: seq<real>, im: seq<real>, k: nat, c: nat,
                  a: nat, w: C, re': seq<real>, im': seq<real>)
    requires IsTurn(turn) && (dir == 1 || dir == -1) && l < total && Pow2(total) <= |re| && Pow2(total) <= |im|
    requires a + Pow2(l) < Pow2(total)
    requires var b := a + Pow2(l);
             var v := Mul(C(re[b], im[b]), w);
             re' == Put(re, a, re[a] + v.re, b, re[a] - v.re) && im' == Put(im, a, im[a] + v.im, b, im[a] - v.im)
    requires k < Pow2(l) && w == Root(turn, dir * k, 2 * Pow2(l))
    requires a == c * (2 * Pow2(l)) + k && Between(turn, x, total, l, dir, re, im, k, c * (2 * Pow2(l)))
    ensures Between(turn, x, total, l, dir, re', im', k, (c + 1) * (2 * Pow2(l)))
  {
    hide BlockBin, Mul, Touched, Root;
    var h := Pow2(l);
    StagePair(turn, x, total, l, dir, c, k, a);
    TouchedAt(h, k, c);
    forall p: nat | p < Pow2(total)
      ensures C(re'[p], im'[p]) == BlockBin(turn, x, total, if Touched(p, h, k, (c + 1) * (2 * h)) then l + 1 else l, dir, p)
    {
      TouchedGrows(p, h, k, c);
    }
  }

  method Column(turn: Turn, ghost x: nat -> C, re: array<real>, im: array<real>, m: nat, ghost total: nat, ghost l: nat,
                ghost dir: int, half: nat, k: nat, c: real, s: real)
    requires IsTurn(turn) && (dir == 1 || dir == -1) && re != im && l < total && m == Pow2(total)
    requires m <= re.Length && m <= im.Length && half == Pow2(l) && k < half
    requires C(c, s) == Root(turn, dir * k, 2 * half)
    requires Between(turn, x, total, l, dir, re[..], im[..], k, 0)
    modifies re, im
    ensures Between(turn, x, total, l, dir, re[..], im[..], k + 1, 0)
    ensures re[m..] == old(re[m..]) && im[m..] == old(im[m..])
  {
    hide IsTurn, Root, BlockBin, Mul, Touched;
    var i := 0;
    ghost var block := 0;
    ghost var reTail, imTail := re[m..], im[m..];
    while i < m
      invariant i == block * (2 * half) && i <= m
      invariant Between(turn, x, total, l, dir, re[..], im[..], k, i)
      invariant re[m..] == reTail && im[m..] == imTail
      decreases m - i
    {
      BlockFits(total, l, block);
      ghost var re0, im0 := re[..], im[..];
      Pair(re, im, i + k, i + k + half, c, s);
      PairKeeps(turn, x, total, l, dir, re0, im0, k, block, i + k, C(c, s), re[..], im[..]);
      assert re[m..] == re0[m..] && im[m..] == im0[m..];
      i := i + 2 * half;
      block := block + 1;
    }
    forall p: nat | p < m ensures Touched(p, half, k, i) == Touched(p, half, k + 1, 0) {
      TouchedEnds(p, half, k, i);
    }
  }

  lemma StageFits(total: nat, l: nat)
    requires l < total
    ensures Pow2(total) == Pow2(total - l - 1) * (2 * Pow2(l))
  {
    Pow2Add(total - l - 1, l + 1);
  }

  lemma BlockFits(total: nat, l: nat, block: nat)
    requires l < total && block * (2 * Pow2(l)) < Pow2(total)
    ensures (block + 1) * (2 * Pow2(l)) <= Pow2(total)
  {
    StageFits(total, l);
    var d := 2 * Pow2(l);
    if block >= Pow2(total - l - 1) { MulLe(Pow2(total - l - 1), block, d); }
    MulLe(block + 1, Pow2(total - l - 1), d);
  }

  lemma TouchedAt(h: nat, k: nat, c: nat)
    requires h > 0 && k < h
    ensures var a := c * (2 * h) + k; !Touched(a, h, k, c * (2 * h)) && !Touched(a + h, h, k, c * (2 * h))
  {
    hide Quot, Rem;
    var a := c * (2 * h) + k;
    DivUnique(a, 2 * h, c, k);
    DivUnique(a + h, 2 * h, c, k + h);
    DivUnique(k, h, 0, k);
    DivUnique(k + h, h, 1, k);
  }

  // ----- twiddle tables

  /** Stage `2 * half` starts at `half - 1`, so a smaller transform's stages are a prefix. */
  datatype Tables = NoTables | Tables(tc: array<real>, ts: array<real>, n: nat)

  ghost predicate TablesOk(turn: Turn, t: Tables)
    reads if t.Tables? then {t.tc, t.ts} else {}
  {
    t.Tables? ==>
      && t.tc.Length == t.n && t.ts.Length == t.n
      && forall l: nat, k: nat {:trigger Entry(turn, t.tc[..], t.ts[..], l, k)} ::
           Pow2(l + 1) <= t.n && k < Pow2(l) ==> Entry(turn, t.tc[..], t.ts[..], l, k)
  }

  ghost predicate Entry(turn: Turn, tc: seq<real>, ts: seq<real>, l: nat, k: nat) {
    var i := Pow2(l) - 1 + k;
    i < |tc| && i < |ts| && C(tc[i], ts[i]) == Root(turn, k, Pow2(l + 1))
  }

  /** The twiddle of column `k`: read from the table, or computed. */
  method Twiddle(turn: Turn, t: Tables, ghost l: nat, half: nat, k: nat, dir: int) returns (c: real, s: real)
    requires IsTurn(turn) && (dir == 1 || dir == -1) && half == Pow2(l) && k < half
    requires TablesOk(turn, t) && (t.Tables? ==> 2 * half <= t.n)
    ensures C(c, s) == Root(turn, dir * k, 2 * half)
  {
    var flip := if dir < 0 then -1.0 else 1.0;
    assert Pow2(l + 1) == 2 * half;
    if t.Tables? {
      assert Entry(turn, t.tc[..], t.ts[..], l, k);
      c, s := t.tc[half - 1 + k], t.ts[half - 1 + k] * flip;
    } else {
      var w := turn(k as real / (2 * half) as real);
      c, s := w.re, w.im * flip;
    }
    RootConj(turn, k, 2 * half);
    assert dir == -1 ==> dir * k == 0 - k;
    assert dir == 1 ==> dir * k == k;
  }

  // ----- the transform

  method Stage(turn: Turn, ghost x: nat -> C, re: array<real>, im: array<real>, m: nat, ghost total: nat, ghost l: nat,
               dir: int, half: nat, t: Tables)
    requires IsTurn(turn) && (dir == 1 || dir == -1) && re != im && l < total && m == Pow2(total)
    requires m <= re.Length && m <= im.Length && half == Pow2(l) && 2 * half <= m
    requires TablesOk(turn, t) && (t.Tables? ==> m <= t.n && re != t.tc && re != t.ts && im != t.tc && im != t.ts)
    requires StageDone(turn, x, total, l, dir, re[..], im[..])
    modifies re, im
    ensures StageDone(turn, x, total, l + 1, dir, re[..], im[..])
    ensures re[m..] == old(re[m..]) && im[m..] == old(im[m..])
  {
    var k := 0;
    ghost var reTail, imTail := re[m..], im[m..];
    forall p: nat | p < m ensures !Touched(p, half, 0, 0) { TouchedEnds(p, half, 0, m); }
    while k < half
      invariant k <= half && TablesOk(turn, t)
      invariant Between(turn, x, total, l, dir, re[..], im[..], k, 0)
      invariant re[m..] == reTail && im[m..] == imTail
    {
      var c, s := Twiddle(turn, t, l, half, k, dir);
      Column(turn, x, re, im, m, total, l, dir, half, k, c, s);
      k := k + 1;
    }
    forall p: nat | p < m ensures Touched(p, half, half, 0) { TouchedEnds(p, half, half, m); }
  }

  method AllStages(turn: Turn, ghost x: nat -> C, re: array<real>, im: array<real>, m: nat, ghost total: nat, dir: int, t: Tables)
    requires IsTurn(turn) && (dir == 1 || dir == -1) && re != im && m == Pow2(total)
    requires m <= re.Length && m <= im.Length
    requires TablesOk(turn, t) && (t.Tables? ==> m <= t.n && re != t.tc && re != t.ts && im != t.tc && im != t.ts)
    requires StageDone(turn, x, total, 0, dir, re[..], im[..])
    modifies re, im
    ensures StageDone(turn, x, total, total, dir, re[..], im[..])
    ensures re[m..] == old(re[m..]) && im[m..] == old(im[m..])
  {
    ghost var reTail, imTail := re[m..], im[m..];
    hide IsTurn, StageDone;
    var len := 2;
    ghost var l := 0;
    while len <= m
      invariant l <= total && len == Pow2(l + 1) && TablesOk(turn, t)
      invariant StageDone(turn, x, total, l, dir, re[..], im[..])
      invariant re[m..] == reTail && im[m..] == imTail
      decreases total - l
    {
      Stage(turn, x, re, im, m, total, l, dir, len / 2, t);
      len, l := 2 * len, l + 1;
    }
    if l < total { Pow2Monotone(l + 1, total); }
  }

  ghost predicate Samples(x: nat -> C, m: nat, re: seq<real>, im: seq<real>)
    requires m <= |re| && m <= |im|
  {
    forall j: nat :: j < m ==> x(j) == C(re[j], im[j])
  }

  ghost predicate Spectrum(turn: Turn, x: nat -> C, m: nat, dir: int, re: seq<real>, im: seq<real>)
    requires 0 < m <= |re| && m <= |im|
  {
    forall p: nat :: p < m ==> C(re[p], im[p]) == Bin(turn, x, m, dir, p)
  }

  /** `fft_complex`: every position ends up holding its bin of the DFT sum, whichever way
      the twiddles were obtained. */
  method FftComplex(turn: Turn, ghost x: nat -> C, re: array<real>, im: array<real>, m: nat, ghost total: nat, dir: int, t: Tables)
    requires IsTurn(turn) && (dir == 1 || dir == -1) && re != im && m == Pow2(total)
    requires m <= re.Length && m <= im.Length
    requires TablesOk(turn, t) && (t.Tables? ==> m <= t.n && re != t.tc && re != t.ts && im != t.tc && im != t.ts)
    requires Samples(x, m, re[..], im[..])
    modifies re, im
    ensures Spectrum(turn, x, m, dir, re[..], im[..])
    ensures re[m..] == old(re[m..]) && im[m..] == old(im[m..])
  {
    BitReverse(re, im, m, total);
    ReversedIsStageZero(turn, x, total, dir, old(re[..]), old(im[..]), re[..], im[..]);
    AllStages(turn, x, re, im, m, total, dir, t);
    LastStageIsSpectrum(turn, x, total, dir, re[..], im[..]);
  }

  lemma ReversedIsStageZero(turn: Turn, x: nat -> C, total: nat, dir: int, re0: seq<real>, im0: seq<real>, re: seq<real>, im: seq<real>)
    requires IsTurn(turn) && Pow2(total) <= |re| == |re0| && Pow2(total) <= |im| == |im0|
    requires Samples(x, Pow2(total), re0, im0)
    requires forall p: nat :: p < Pow2(total) ==> re[p] == re0[Rev(total, p)] && im[p] == im0[Rev(total, p)]
    ensures StageDone(turn, x, total, 0, dir, re, im)
  {
    forall p: nat | p < Pow2(total) ensures C(re[p], im[p]) == BlockBin(turn, x, total, 0, dir, p) {
      SinglePoint(turn, x, total, dir, p);
    }
  }

  lemma LastStageIsSpectrum(turn: Turn, x: nat -> C, total: nat, dir: int, re: seq<real>, im: seq<real>)
    requires Pow2(total) <= |re| && Pow2(total) <= |im| && StageDone(turn, x, total, total, dir, re, im)
    ensures Spectrum(turn, x, Pow2(total), dir, re, im)
  {
    forall p: nat | p < Pow2(total) ensures C(re[p], im[p]) == Bin(turn, x, Pow2(total), dir, p) {
      WholeBlock(turn, x, total, dir, p);
    }
  }

  lemma SinglePoint(turn: Turn, x: nat -> C, total: nat, dir: int, p: nat)
    requires IsTurn(turn) && p < Pow2(total)
    ensures BlockBin(turn, x, total, 0, dir, p) == x(Rev(total, p))
  {
    var y := Every(x, Pow2(total), Rev(total, p));
    DivUnique(p, 1, p, 0);
    assert dir * 0 * 0 == 0;
    RootZero(turn, 1);
    var f := Term(turn, y, 1, dir, 0);
    assert y(0) == x(Rev(total, p));
    MulOne(y(0));
    assert f(0) == y(0);
    assert Sum(f, 1) == Add(Sum(f, 0), f(0));
  }

  lemma WholeBlock(turn: Turn, x: nat -> C, total: nat, dir: int, p: nat)
    requires p < Pow2(total)
    ensures BlockBin(turn, x, total, total, dir, p) == Bin(turn, x, Pow2(total), dir, p)
  {
    DivUnique(p, Pow2(total), 0, p);
    assert Pow2(0) == 1 && Rev(0, 0) == 0;
    BinEq(turn, Every(x, 1, 0), x, Pow2(total), dir, p);
  }
}
