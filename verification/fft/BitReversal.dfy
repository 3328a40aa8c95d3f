/** The permutation at the front of an in-place transform: bit reversal by a reversed carry. */
module BitReversal {

  function Pow2(l: nat): (p: nat)
    ensures p > 0
  {
    if l == 0 then 1 else 2 * Pow2(l - 1)
  }

  lemma {:induction false} Pow2Add(a: nat, b: nat)
    ensures Pow2(a + b) == Pow2(a) * Pow2(b)
  {
    if a > 0 {
      Pow2Add(a - 1, b);
      assert Pow2(a + b) == 2 * Pow2(a - 1 + b);
    }
  }

  lemma {:induction false} Pow2Monotone(a: nat, b: nat)
    requires a <= b
    ensures Pow2(a) <= Pow2(b)
  {
    if a < b { Pow2Monotone(a, b - 1); }
  }

  /** The low `l` bits of `i`, in reverse order. */
  function Rev(l: nat, i: nat): (r: nat)
    ensures r < Pow2(l)
  {
    if l == 0 then 0 else (if i % 2 == 1 then Pow2(l - 1) else 0) + Rev(l - 1, i / 2)
  }

  /** `low` with bit `l` set, or not. */
  function WithTop(l: nat, low: nat, top: bool): nat {
    if top then low + Pow2(l) else low
  }

  /** Peeling from the other end: the top bit of `i` becomes the bottom bit of the result. */
  lemma {:induction false} RevTop(l: nat, low: nat, top: bool)
    requires low < Pow2(l)
    ensures Rev(l + 1, WithTop(l, low, top)) == 2 * Rev(l, low) + if top then 1 else 0
  {
    var i := WithTop(l, low, top);
    if l == 0 {
      assert Rev(0, i / 2) == 0;
    } else {
      assert i % 2 == low % 2 && i / 2 == WithTop(l - 1, low / 2, top);
      RevTop(l - 1, low / 2, top);
    }
  }

  lemma {:induction false} RevInvolutive(l: nat, i: nat)
    requires i < Pow2(l)
    ensures Rev(l, Rev(l, i)) == i
  {
    if l > 0 {
      RevInvolutive(l - 1, i / 2);
      RevTop(l - 1, Rev(l - 1, i / 2), i % 2 == 1);
    }
  }

  /** Incrementing `i` is adding one from the top down in its reversal. */
  lemma RevCarry(l: nat, i: nat)
    requires l > 0
    ensures i % 2 == 0 ==> Rev(l, i + 1) == Rev(l, i) + Pow2(l - 1) && Rev(l, i) < Pow2(l - 1)
    ensures i % 2 == 1 ==> Rev(l, i) >= Pow2(l - 1)
    ensures i % 2 == 1 ==> Rev(l, i) - Pow2(l - 1) == Rev(l - 1, i / 2) && Rev(l, i + 1) == Rev(l - 1, i / 2 + 1)
  {
    if i % 2 == 0 {
      assert (i + 1) / 2 == i / 2 && (i + 1) % 2 == 1;
    } else {
      assert (i + 1) / 2 == i / 2 + 1 && (i + 1) % 2 == 0;
    }
  }

  /** Counting up in reversed bits: ones are taken away from the top until a zero can be set. */
  method NextReversed(m: nat, ghost l: nat, ghost i: nat, j0: nat) returns (j: nat)
    requires l > 0 && m == Pow2(l) && i + 1 < m && j0 == Rev(l, i)
    ensures j == Rev(l, i + 1)
  {
    j := j0;
    var bit := m / 2;
    ghost var w: nat, c: nat := l, i;
    while Quot(j, bit) % 2 == 1
      invariant 0 < w <= l && bit == Pow2(w - 1) && c + 1 < Pow2(w)
      invariant j == Rev(w, c) && Rev(l, i + 1) == Rev(w, c + 1)
      decreases w
    {
      TopBit(w, j);
      RevCarry(w, c);
      CarryRoom(w, c);
      j := j - bit;
      bit := bit / 2;
      w, c := w - 1, c / 2;
    }
    TopBit(w, j);
    RevCarry(w, c);
    j := j + bit;
  }

  lemma TopBit(w: nat, j: nat)
    requires w > 0 && j < Pow2(w)
    ensures Quot(j, Pow2(w - 1)) % 2 == 1 <==> j >= Pow2(w - 1)
  {
    var h := Pow2(w - 1);
    if j >= h {
      DivUnique(j, h, 1, j - h);
    } else {
      DivUnique(j, h, 0, j);
    }
  }

  lemma MulLe(x: int, y: int, d: nat)
    requires x <= y
    ensures x * d <= y * d
  {
    assert y * d - x * d == (y - x) * d;
  }

  /** Quotient and remainder by a positive divisor. */
  function Quot(a: nat, d: nat): nat
    requires d > 0
  {
    a / d
  }

  function Rem(a: nat, d: nat): (r: nat)
    requires d > 0
    ensures r < d && r <= a
  {
    a % d
  }

  lemma DivUnique(a: nat, d: nat, q: nat, r: nat)
    requires d > 0 && a == q * d + r && r < d
    ensures Quot(a, d) == q && Rem(a, d) == r
  {
    var q' := a / d;
    if q' > q {
      MulLe(q + 1, q', d);
    } else if q' < q {
      MulLe(q' + 1, q, d);
    }
  }

  lemma DivParts(a: nat, d: nat)
    requires d > 0
    ensures a == Quot(a, d) * d + Rem(a, d)
  {
  }

  /** An all-ones counter never carries out of the top: there is always a zero bit left. */
  lemma CarryRoom(w: nat, c: nat)
    requires w > 0 && c % 2 == 1 && c + 1 < Pow2(w)
    ensures w > 1 && c / 2 + 1 < Pow2(w - 1)
  {
    assert Pow2(w) == 2 * Pow2(w - 1) && Pow2(0) == 1;
  }
}
