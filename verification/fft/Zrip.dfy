/** The packed real transform and its setup object. */
module Zrip {
  import opened ComplexNumbers
  import opened Dft
  import opened BitReversal
  import opened Fft
  import opened RealDft

  // ----- the setup's tables

  /** The half-bin angles of the forward recombination depend on the size itself. */
  datatype Recomb = NoRecomb | Recomb(rc: array<real>, rs: array<real>)

  ghost predicate RecombOk(turn: Turn, r: Recomb, n: nat)
    requires n > 0
    reads if r.Recomb? then {r.rc, r.rs} else {}
  {
    r.Recomb? ==>
      && r.rc.Length == n / 2 && r.rs.Length == n / 2
      && forall k: nat :: k < n / 2 ==> C(r.rc[k], r.rs[k]) == Root(turn, -1 * k, n)
  }

  /** Stage `l'`, column `k'` comes before stage `l`, column `k`. */
  predicate Earlier(l': nat, k': nat, l: nat, k: nat) {
    k' < Pow2(l') && (l' < l || (l' == l && k' < k))
  }

  ghost predicate FilledTo(turn: Turn, tc: seq<real>, ts: seq<real>, l: nat, k: nat) {
    forall l': nat, k': nat :: Earlier(l', k', l, k) ==> Entry(turn, tc, ts, l', k')
  }

  lemma FillStep(turn: Turn, tc: seq<real>, ts: seq<real>, l: nat, k: nat, w: C)
    requires k < Pow2(l) && Pow2(l) - 1 + k < |tc| == |ts| && FilledTo(turn, tc, ts, l, k)
    requires w == Root(turn, k, Pow2(l + 1))
    ensures var i := Pow2(l) - 1 + k; FilledTo(turn, tc[i := w.re], ts[i := w.im], l, k + 1)
  {
    var i, next := Pow2(l) - 1 + k, k + 1;
    forall l': nat, k': nat | Earlier(l', k', l, next)
      ensures Entry(turn, tc[i := w.re], ts[i := w.im], l', k')
    {
      if l' < l {
        Pow2Monotone(l' + 1, l);
      }
      if l' < l || k' < k {
        assert Earlier(l', k', l, k);
      }
    }
  }

  /** The butterfly angles of every stage, one stage after another. */
  method FillStages(turn: Turn, tc: array<real>, ts: array<real>, n: nat, ghost log2n: nat)
    requires IsTurn(turn) && tc != ts && n == Pow2(log2n) && tc.Length == n && ts.Length == n
    modifies tc, ts
    ensures TablesOk(turn, Tables(tc, ts, n))
  {
    hide Root, IsTurn, Entry;
    var len := 2;
    ghost var l := 0;
    while len <= n
      invariant len == Pow2(l + 1) && FilledTo(turn, tc[..], ts[..], l, 0)
      decreases n + 1 - len
    {
      var k := 0;
      while k < len / 2
        invariant k <= len / 2 && FilledTo(turn, tc[..], ts[..], l, k)
      {
        var w := turn(k as real / len as real);
        assert w == Root(turn, k, len) by { RootIs(turn, k, len); }
        FillStep(turn, tc[..], ts[..], l, k, w);
        tc[len / 2 - 1 + k], ts[len / 2 - 1 + k] := w.re, w.im;
        k := k + 1;
      }
      len, l := 2 * len, l + 1;
    }
    forall l': nat, k: nat | Pow2(l' + 1) <= n && k < Pow2(l') ensures Entry(turn, tc[..], ts[..], l', k) {
      if l' >= l { Pow2Monotone(l + 1, l' + 1); }
      assert Earlier(l', k, l, 0);
    }
  }

  lemma RootIs(turn: Turn, a: int, n: nat)
    requires n > 0
    ensures Root(turn, a, n) == turn(a as real / n as real)
  {
  }

  method FillRecomb(turn: Turn, rc: array<real>, rs: array<real>, n: nat)
    requires n > 0 && rc != rs && rc.Length == n / 2 && rs.Length == n / 2
    modifies rc, rs
    ensures RecombOk(turn, Recomb(rc, rs), n)
  {
    var k := 0;
    while k < n / 2
      invariant k <= n / 2
      invariant forall j: nat :: j < k ==> C(rc[j], rs[j]) == Root(turn, -1 * j, n)
    {
      var w := turn((-1 * k) as real / n as real);
      rc[k], rs[k] := w.re, w.im;
      k := k + 1;
    }
  }

  method NewTables(turn: Turn, log2n: nat) returns (t: Tables, r: Recomb)
    requires IsTurn(turn)
    ensures t.Tables? && t.n == Pow2(log2n) && r.Recomb? && fresh({t.tc, t.ts, r.rc, r.rs})
    ensures TablesOk(turn, t) && RecombOk(turn, r, Pow2(log2n))
  {
    var n := Pow2(log2n);
    var tc, ts := new real[n], new real[n];
    var rc, rs := new real[n / 2], new real[n / 2];
    FillStages(turn, tc, ts, n, log2n);
    FillRecomb(turn, rc, rs, n);
    t, r := Tables(tc, ts, n), Recomb(rc, rs);
  }

  /** Working buffers; the inverse needs a full-length pair. */
  datatype Buffers = Buffers(re: array<real>, im: array<real>, ar: array<real>, ai: array<real>, gr: array<real>, gi: array<real>)
  {
    ghost function Objects(): set<object> { {re, im, ar, ai, gr, gi} }

    ghost predicate Apart() {
      re != im && ar != ai && gr != gi && {re, im} !! {ar, ai} && {re, im} !! {gr, gi}
    }

    ghost predicate Hold(n: nat) {
      && Apart() && n <= gr.Length && n <= gi.Length
      && n / 2 <= re.Length && n / 2 <= im.Length && n / 2 <= ar.Length && n / 2 <= ai.Length
    }
  }

  method NewBuffers(n: nat) returns (b: Buffers)
    ensures b.Hold(n) && fresh(b.Objects())
  {
    var re, im := new real[n / 2], new real[n / 2];
    var ar, ai := new real[n / 2], new real[n / 2];
    var gr, gi := new real[n], new real[n];
    b := Buffers(re, im, ar, ai, gr, gi);
  }

  ghost function TableObjects(t: Tables, r: Recomb): set<object> {
    (if t.Tables? then {t.tc, t.ts} else {}) + (if r.Recomb? then {r.rc, r.rs} else {})
  }

  class FftSetup {
    const log2n: nat
    const n: nat
    const tables: Tables
    const recomb: Recomb
    const buffers: Buffers

    /** A one-point setup has nothing to precompute. */
    predicate Ready() { log2n > 0 }

    ghost function Tabled(): set<object> { TableObjects(tables, recomb) }

    ghost predicate Valid(turn: Turn)
      reads Tabled()
    {
      && n == Pow2(log2n) && tables.Tables? && tables.n == n && recomb.Recomb?
      && Tabled() !! buffers.Objects() && buffers.Hold(n)
      && TablesOk(turn, tables) && RecombOk(turn, recomb, n)
    }

    constructor (turn: Turn, log2n: nat)
      requires IsTurn(turn)
      ensures Valid(turn) && this.log2n == log2n && fresh(Tabled()) && fresh(buffers.Objects())
    {
      var t, r := NewTables(turn, log2n);
      var b := NewBuffers(Pow2(log2n));
      this.log2n := log2n;
      n := Pow2(log2n);
      tables, recomb, buffers := t, r, b;
    }
  }

  /** `sh_create_fftsetup`: radix 2 only, and sizes up to 2^20. */
  method CreateFftSetup(turn: Turn, log2n: nat, radix: int) returns (s: FftSetup?)
    requires IsTurn(turn)
    ensures s == null <==> radix != 0 || log2n > 20
    ensures s != null ==> fresh(s) && s.Valid(turn) && s.log2n == log2n && fresh(s.Tabled()) && fresh(s.buffers.Objects())
  {
    if radix != 0 { return null; }
    if log2n > 20 { return null; }
    s := new FftSetup(turn, log2n);
  }

  // ----- forward

  method RecombTwiddle(turn: Turn, r: Recomb, n: nat, k: nat) returns (c: real, s: real)
    requires n > 0 && k < n / 2 && RecombOk(turn, r, n)
    ensures C(c, s) == Root(turn, -1 * k, n)
  {
    if r.Recomb? {
      c, s := r.rc[k], r.rs[k];
    } else {
      var w := turn((-1 * k) as real / n as real);
      c, s := w.re, w.im;
    }
  }

  ghost predicate Halved(turn: Turn, x: nat -> real, h: nat, ar: seq<real>, ai: seq<real>, upTo: nat)
    requires h > 0 && upTo <= |ar| && upTo <= |ai|
  {
    forall k: nat :: k < upTo ==> HalfSpectrum(turn, x, 2 * h)(k) == C(2.0 * ar[k], 2.0 * ai[k])
  }

  lemma FirstSlot(turn: Turn, x: nat -> real, h: nat, z: C)
    requires IsTurn(turn) && h > 0 && z == Bin(turn, Packed(x), h, -1, 0)
    ensures HalfSpectrum(turn, x, 2 * h)(0) == C(2.0 * (z.re + z.im), 2.0 * (z.re - z.im))
  {
    EndBins(turn, x, h);
    assert 2 * h / 2 == h;
  }

  /** The recombination of the two halves of the packed spectrum. */
  method Recombine(turn: Turn, ghost x: nat -> real, re: array<real>, im: array<real>, ar: array<real>, ai: array<real>, h: nat, r: Recomb)
    requires IsTurn(turn) && h > 0 && {re, im} !! {ar, ai} && ar != ai
    requires h <= re.Length && h <= im.Length && h <= ar.Length && h <= ai.Length
    requires Spectrum(turn, Packed(x), h, -1, re[..], im[..])
    requires RecombOk(turn, r, 2 * h) && (r.Recomb? ==> {ar, ai} !! {r.rc, r.rs})
    modifies ar, ai
    ensures Halved(turn, x, h, ar[..], ai[..], h)
  {
    hide IsTurn, Root, Bin, HalfSpectrum, Recombined;
    var n := 2 * h;
    ar[0], ai[0] := re[0] + im[0], re[0] - im[0];
    FirstSlot(turn, x, h, C(re[..][0], im[..][0]));
    ghost var re0, im0 := re[..], im[..];
    var k := 1;
    while k < h
      invariant 1 <= k <= h && re[..] == re0 && im[..] == im0 && RecombOk(turn, r, n)
      invariant Halved(turn, x, h, ar[..], ai[..], k)
    {
      var m := h - k;
      var c, sn := RecombTwiddle(turn, r, n, k);
      ghost var ar0, ai0 := ar[..], ai[..];
      ar[k], ai[k] := CombineBin(re[k], im[k], re[m], im[m], c, sn);
      MiddleSlot(turn, x, h, k, C(re0[k], im0[k]), C(re0[m], im0[m]), C(c, sn), C(ar[k], ai[k]));
      assert forall i: nat :: i < k ==> ar[..][i] == ar0[i] && ai[..][i] == ai0[i];
      k := k + 1;
    }
  }

  /** One slot from the packed bin, its mirror and the twiddle. */
  method CombineBin(zr: real, zi: real, yr: real, yi: real, c: real, s: real) returns (a: real, b: real)
    ensures C(a, b) == Recombined(C(zr, zi), C(yr, yi), C(c, s))
  {
    var er, ei := 0.5 * (zr + yr), 0.5 * (zi - yi);
    var orr, oi := 0.5 * (zi + yi), -0.5 * (zr - yr);
    a := er + (orr * c - oi * s);
    b := ei + (orr * s + oi * c);
  }

  lemma MiddleSlot(turn: Turn, x: nat -> real, h: nat, k: nat, z: C, y: C, w: C, a: C)
    requires IsTurn(turn) && 0 < k < h && a == Recombined(z, y, w)
    requires z == Bin(turn, Packed(x), h, -1, k) && y == Bin(turn, Packed(x), h, -1, h - k) && w == Root(turn, -1 * k, 2 * h)
    ensures HalfSpectrum(turn, x, 2 * h)(k) == C(2.0 * a.re, 2.0 * a.im)
  {
    hide Bin, Root, IsTurn, Packed, AsComplex, Recombined;
    MiddleBin(turn, x, h, k);
  }

  // ----- inverse

  ghost predicate SlotsAre(g: nat -> C, h: nat, re: seq<real>, im: seq<real>)
    requires h <= |re| && h <= |im|
  {
    forall k: nat :: k < h ==> g(k) == C(re[k], im[k])
  }

  ghost predicate UnpackedTo(g: nat -> C, h: nat, gr: seq<real>, gi: seq<real>, k: nat)
    requires 2 * h <= |gr| && 2 * h <= |gi|
  {
    forall j: nat :: j < 2 * h && (j < k || j == h || j > 2 * h - k) ==> Unpacked(g, 2 * h)(j) == C(gr[j], gi[j])
  }

  /** Lay out the whole spectrum a packed one stands for. */
  method Unpack(ghost g: nat -> C, re: array<real>, im: array<real>, gr: array<real>, gi: array<real>, h: nat)
    requires h > 0 && {re, im} !! {gr, gi} && gr != gi
    requires h <= re.Length && h <= im.Length && 2 * h <= gr.Length && 2 * h <= gi.Length
    requires SlotsAre(g, h, re[..], im[..])
    modifies gr, gi
    ensures Samples(Unpacked(g, 2 * h), 2 * h, gr[..], gi[..])
  {
    var n := 2 * h;
    ghost var re0, im0 := re[..], im[..];
    gr[0], gi[0] := re[0], 0.0;
    gr[h], gi[h] := im[0], 0.0;
    assert g(0) == C(re0[0], im0[0]);
    UnpackedStart(g, h, gr[..], gi[..]);
    var k := 1;
    while k < h
      invariant 1 <= k <= h && re[..] == re0 && im[..] == im0
      invariant UnpackedTo(g, h, gr[..], gi[..], k)
    {
      UnpackedStep(g, h, gr[..], gi[..], k);
      assert g(k) == C(re0[k], im0[k]);
      gr[k], gi[k] := re[k], im[k];
      gr[n - k], gi[n - k] := re[k], -im[k];
      k := k + 1;
    }
  }

  lemma UnpackedStart(g: nat -> C, h: nat, gr: seq<real>, gi: seq<real>)
    requires h > 0 && 2 * h <= |gr| && 2 * h <= |gi|
    requires C(gr[0], gi[0]) == Real(g(0).re) && C(gr[h], gi[h]) == Real(g(0).im)
    ensures UnpackedTo(g, h, gr, gi, 1)
  {
    forall j: nat | j < 2 * h && (j < 1 || j == h || j > 2 * h - 1) ensures Unpacked(g, 2 * h)(j) == C(gr[j], gi[j]) {
      assert j == 0 || j == h;
    }
  }

  lemma UnpackedStep(g: nat -> C, h: nat, gr: seq<real>, gi: seq<real>, k: nat)
    requires 0 < k < h && 2 * h <= |gr| && 2 * h <= |gi| && UnpackedTo(g, h, gr, gi, k)
    ensures UnpackedTo(g, h, gr[k := g(k).re][2 * h - k := g(k).re], gi[k := g(k).im][2 * h - k := -g(k).im], k + 1)
  {
    var gr', gi' := gr[k := g(k).re][2 * h - k := g(k).re], gi[k := g(k).im][2 * h - k := -g(k).im];
    forall j: nat | j < 2 * h && (j < k + 1 || j == h || j > 2 * h - (k + 1)) ensures Unpacked(g, 2 * h)(j) == C(gr'[j], gi'[j]) {
      if j != k && j != 2 * h - k {
        assert j < k || j == h || j > 2 * h - k;
        assert Unpacked(g, 2 * h)(j) == C(gr[j], gi[j]);
      }
    }
  }

  // ----- strided access

  /** A split-complex signal in memory: where its real and its imaginary parts start, and the
      signed step from one slot to the next. */
  datatype Split = Split(re: int, im: int, stride: int)

  function Place(at: int, stride: int, k: nat): int { at + k * stride }

  predicate InMemory(len: nat, s: Split, k: nat) {
    0 <= Place(s.re, s.stride, k) < len && 0 <= Place(s.im, s.stride, k) < len
  }

  /** The first `h` slots are in memory, and no real part lies where an imaginary part does. */
  ghost predicate Fits(len: nat, s: Split, h: nat) {
    && (forall k: nat :: k < h ==> InMemory(len, s, k))
    && (forall j: nat, k: nat :: j < h && k < h ==> Place(s.re, s.stride, j) != Place(s.im, s.stride, k))
  }

  /** Of `h` slots written in order, the one whose value slot `k` ends up with: its own, unless
      the step is zero and all slots are one. */
  function Last(stride: int, k: nat, h: nat): nat
    requires k < h
  {
    if stride == 0 then h - 1 else k
  }

  lemma PlacesApart(at: int, stride: int, j: nat, k: nat)
    requires j < k && stride != 0
    ensures Place(at, stride, j) != Place(at, stride, k)
  {
    assert (k - j) * stride != 0;
    assert k * stride == j * stride + (k - j) * stride;
  }

  /** Slot `k` of a split-complex signal. */
  ghost function Slots(mem: seq<real>, s: Split): nat -> C {
    (k: nat) => if InMemory(|mem|, s, k) then C(mem[Place(s.re, s.stride, k)], mem[Place(s.im, s.stride, k)]) else ZERO
  }

  /** Interleaved, as `ctoz` reads it: even samples real, odd samples imaginary. */
  ghost function Signal(slots: nat -> C): nat -> real {
    (j: nat) => if j % 2 == 0 then slots(j / 2).re else slots(j / 2).im
  }

  lemma PackedSignal(slots: nat -> C, k: nat)
    ensures Packed(Signal(slots))(k) == slots(k)
  {
    assert (2 * k) / 2 == k && (2 * k + 1) / 2 == k;
  }

  method Gather(mem: array<real>, s: Split, re: array<real>, im: array<real>, h: nat)
    requires mem !in {re, im} && re != im && h <= re.Length && h <= im.Length && Fits(mem.Length, s, h)
    modifies re, im
    ensures forall k: nat :: k < h ==> C(re[..][k], im[..][k]) == Slots(mem[..], s)(k)
  {
    var k := 0;
    while k < h
      invariant k <= h && forall j: nat :: j < k ==> C(re[..][j], im[..][j]) == Slots(mem[..], s)(j)
    {
      assert InMemory(mem.Length, s, k);
      re[k], im[k] := mem[Place(s.re, s.stride, k)], mem[Place(s.im, s.stride, k)];
      k := k + 1;
    }
  }

  /** Memory with one slot written, the real part first. */
  ghost function WithSlot(mem: seq<real>, s: Split, k: nat, x: real, y: real): (r: seq<real>)
    requires InMemory(|mem|, s, k)
    ensures |r| == |mem|
  {
    mem[Place(s.re, s.stride, k) := x][Place(s.im, s.stride, k) := y]
  }

  lemma WithSlotAt(mem: seq<real>, s: Split, j: nat, x: real, y: real, k: nat)
    requires InMemory(|mem|, s, j) && Place(s.re, s.stride, j) != Place(s.im, s.stride, j) && (k == j || s.stride == 0)
    ensures Slots(WithSlot(mem, s, j, x, y), s)(k) == C(x, y)
  {
    assert s.stride == 0 ==> Place(s.re, s.stride, k) == s.re == Place(s.re, s.stride, j);
    assert s.stride == 0 ==> Place(s.im, s.stride, k) == s.im == Place(s.im, s.stride, j);
  }

  lemma WithSlotElsewhere(mem: seq<real>, s: Split, j: nat, x: real, y: real, k: nat)
    requires InMemory(|mem|, s, j) && InMemory(|mem|, s, k) && s.stride != 0 && k < j
    requires Place(s.re, s.stride, j) != Place(s.im, s.stride, k) && Place(s.re, s.stride, k) != Place(s.im, s.stride, j)
    ensures Slots(WithSlot(mem, s, j, x, y), s)(k) == Slots(mem, s)(k)
  {
    PlacesApart(s.re, s.stride, k, j);
    PlacesApart(s.im, s.stride, k, j);
  }

  /** Memory after the first `h` slots are written with `a` and `b`, one after another. */
  ghost function Scattered(mem: seq<real>, s: Split, a: seq<real>, b: seq<real>, h: nat): (r: seq<real>)
    requires Fits(|mem|, s, h) && h <= |a| && h <= |b|
    ensures |r| == |mem|
  {
    if h == 0 then mem
    else
      assert InMemory(|mem|, s, h - 1);
      WithSlot(Scattered(mem, s, a, b, h - 1), s, h - 1, a[h - 1], b[h - 1])
  }

  predicate OnGrid(i: int, s: Split, h: nat) {
    exists k: nat :: k < h && (i == Place(s.re, s.stride, k) || i == Place(s.im, s.stride, k))
  }

  lemma {:induction false} ScatteredAt(mem: seq<real>, s: Split, a: seq<real>, b: seq<real>, h: nat, k: nat)
    requires Fits(|mem|, s, h) && h <= |a| && h <= |b| && k < h && InMemory(|mem|, s, k)
    ensures Slots(Scattered(mem, s, a, b, h), s)(k) == C(a[Last(s.stride, k, h)], b[Last(s.stride, k, h)])
    decreases h
  {
    hide WithSlot, Slots, InMemory, Place;
    var front := Scattered(mem, s, a, b, h - 1);
    assert InMemory(|mem|, s, h - 1);
    assert Scattered(mem, s, a, b, h) == WithSlot(front, s, h - 1, a[h - 1], b[h - 1]);
    if s.stride != 0 && k < h - 1 {
      ScatteredAt(mem, s, a, b, h - 1, k);
      WithSlotElsewhere(front, s, h - 1, a[h - 1], b[h - 1], k);
    } else {
      WithSlotAt(front, s, h - 1, a[h - 1], b[h - 1], k);
    }
  }

  lemma {:induction false} ScatteredElsewhere(mem: seq<real>, s: Split, a: seq<real>, b: seq<real>, h: nat, i: nat)
    requires Fits(|mem|, s, h) && h <= |a| && h <= |b| && i < |mem| && !OnGrid(i, s, h)
    ensures Scattered(mem, s, a, b, h)[i] == mem[i]
    decreases h
  {
    if h > 0 {
      FitsFewer(|mem|, s, h, h - 1);
      OffGridFewer(i, s, h);
      hide Place, OnGrid;
      assert InMemory(|mem|, s, h - 1);
      assert Scattered(mem, s, a, b, h) == WithSlot(Scattered(mem, s, a, b, h - 1), s, h - 1, a[h - 1], b[h - 1]);
      ScatteredElsewhere(mem, s, a, b, h - 1, i);
    }
  }

  lemma OffGridFewer(i: int, s: Split, h: nat)
    requires h > 0 && !OnGrid(i, s, h)
    ensures !OnGrid(i, s, h - 1) && i != Place(s.re, s.stride, h - 1) && i != Place(s.im, s.stride, h - 1)
  {
    var last := h - 1;
    if i == Place(s.re, s.stride, last) || i == Place(s.im, s.stride, last) {
      assert OnGrid(i, s, h);
    }
  }

  lemma FitsFewer(len: nat, s: Split, h: nat, k: nat)
    requires Fits(len, s, h) && k <= h
    ensures Fits(len, s, k)
  {
  }

  /** Twice the recombined bins into the slots. */
  method ScatterTwice(ar: array<real>, ai: array<real>, mem: array<real>, s: Split, h: nat, ghost a: seq<real>, ghost b: seq<real>)
    requires mem !in {ar, ai} && Fits(mem.Length, s, h) && h <= ar.Length && h <= ai.Length && |a| == |b| == h
    requires forall k: nat :: k < h ==> a[k] == 2.0 * ar[k] && b[k] == 2.0 * ai[k]
    modifies mem
    ensures mem[..] == Scattered(old(mem[..]), s, a, b, h)
  {
    var k := 0;
    while k < h
      invariant k <= h && ar[..] == old(ar[..]) && ai[..] == old(ai[..]) && Fits(mem.Length, s, k)
      invariant mem[..] == Scattered(old(mem[..]), s, a, b, k)
    {
      assert InMemory(mem.Length, s, k);
      assert a[k] == 2.0 * ar[..][k] && b[k] == 2.0 * ai[..][k];
      FitsFewer(mem.Length, s, h, k + 1);
      mem[Place(s.re, s.stride, k)] := 2.0 * ar[k];
      mem[Place(s.im, s.stride, k)] := 2.0 * ai[k];
      k := k + 1;
    }
  }

  /** The even samples to the real parts, the odd ones to the imaginary parts. */
  method ScatterPairs(src: array<real>, mem: array<real>, s: Split, h: nat, ghost a: seq<real>, ghost b: seq<real>)
    requires src != mem && Fits(mem.Length, s, h) && 2 * h <= src.Length && |a| == |b| == h
    requires forall k: nat :: k < h ==> a[k] == src[2 * k + 0] && b[k] == src[2 * k + 1]
    modifies mem
    ensures mem[..] == Scattered(old(mem[..]), s, a, b, h)
  {
    var k := 0;
    while k < h
      invariant k <= h && src[..] == old(src[..]) && Fits(mem.Length, s, k)
      invariant mem[..] == Scattered(old(mem[..]), s, a, b, k)
    {
      assert InMemory(mem.Length, s, k);
      assert a[k] == src[..][2 * k + 0] && b[k] == src[..][2 * k + 1];
      FitsFewer(mem.Length, s, h, k + 1);
      mem[Place(s.re, s.stride, k)] := src[2 * k];
      mem[Place(s.im, s.stride, k)] := src[2 * k + 1];
      k := k + 1;
    }
  }

  ghost predicate OffGridKept(mem: seq<real>, was: seq<real>, s: Split, h: nat) {
    |mem| == |was| && forall i: nat :: i < |mem| && !OnGrid(i, s, h) ==> mem[i] == was[i]
  }

  /** Every slot holds the pair last written to it. */
  ghost predicate Landed(g: nat -> C, stride: int, h: nat, a: seq<real>, b: seq<real>)
    requires h <= |a| && h <= |b|
  {
    forall k: nat :: k < h ==> g(k) == C(a[Last(stride, k, h)], b[Last(stride, k, h)])
  }

  lemma ScatteredLands(mem: seq<real>, s: Split, a: seq<real>, b: seq<real>, h: nat)
    requires Fits(|mem|, s, h) && h <= |a| && h <= |b|
    ensures Landed(Slots(Scattered(mem, s, a, b, h), s), s.stride, h, a, b)
    ensures OffGridKept(Scattered(mem, s, a, b, h), mem, s, h)
  {
    hide Slots, Scattered;
    forall k: nat | k < h
      ensures Slots(Scattered(mem, s, a, b, h), s)(k) == C(a[Last(s.stride, k, h)], b[Last(s.stride, k, h)])
    {
      ScatteredAt(mem, s, a, b, h, k);
    }
    forall i: nat | i < |mem| && !OnGrid(i, s, h) ensures Scattered(mem, s, a, b, h)[i] == mem[i] {
      ScatteredElsewhere(mem, s, a, b, h, i);
    }
  }

  // ----- the call itself

  ghost predicate IsForward(turn: Turn, before: nat -> C, after: nat -> C, n: nat, stride: int)
    requires n > 0
  {
    forall k: nat :: k < n / 2 ==> after(k) == HalfSpectrum(turn, Signal(before), n)(Last(stride, k, n / 2))
  }

  /** Slot `k` of the inverse: samples `2 * k` and `2 * k + 1` of the whole signal. */
  ghost function InverseSlot(turn: Turn, before: nat -> C, n: nat, k: nat): C
    requires n > 0
  {
    C(Bin(turn, Unpacked(before, n), n, 1, 2 * k).re, Bin(turn, Unpacked(before, n), n, 1, 2 * k + 1).re)
  }

  ghost predicate IsInverse(turn: Turn, before: nat -> C, after: nat -> C, n: nat, stride: int)
    requires n > 0
  {
    forall k: nat :: k < n / 2 ==> after(k) == InverseSlot(turn, before, n, Last(stride, k, n / 2))
  }

  method Forward(turn: Turn, mem: array<real>, s: Split, h: nat, ghost l: nat, b: Buffers, t: Tables, r: Recomb)
    requires IsTurn(turn) && h == Pow2(l) && b.Hold(2 * h) && Fits(mem.Length, s, h)
    requires TablesOk(turn, t) && RecombOk(turn, r, 2 * h) && (t.Tables? ==> h <= t.n)
    requires mem !in b.Objects() && TableObjects(t, r) !! b.Objects()
    modifies mem, b.Objects()
    ensures IsForward(turn, old(Slots(mem[..], s)), Slots(mem[..], s), 2 * h, s.stride)
    ensures OffGridKept(mem[..], old(mem[..]), s, h)
  {
    hide IsTurn, Bin, HalfSpectrum, Scattered, Slots, Fits, OffGridKept;
    var n := 2 * h;
    ghost var was := mem[..];
    ghost var before := Slots(was, s);
    ghost var x := Signal(before);
    Gather(mem, s, b.re, b.im, h);
    assert Samples(Packed(x), h, b.re[..], b.im[..]) by { GatheredSamples(before, h, b.re[..], b.im[..]); }
    FftComplex(turn, Packed(x), b.re, b.im, h, l, -1, t);
    Recombine(turn, x, b.re, b.im, b.ar, b.ai, h, r);
    ghost var va := seq(h, k requires 0 <= k < h reads b.ar => 2.0 * b.ar[k]);
    ghost var vb := seq(h, k requires 0 <= k < h reads b.ai => 2.0 * b.ai[k]);
    assert HalfSlots(turn, x, h, va, vb);
    ScatterTwice(b.ar, b.ai, mem, s, h, va, vb);
    ScatteredLands(was, s, va, vb, h);
    ForwardFromSlots(turn, before, Slots(mem[..], s), s.stride, h, va, vb);
  }

  ghost predicate HalfSlots(turn: Turn, x: nat -> real, h: nat, va: seq<real>, vb: seq<real>)
    requires h > 0 && h <= |va| && h <= |vb|
  {
    forall k: nat :: k < h ==> HalfSpectrum(turn, x, 2 * h)(k) == C(va[k], vb[k])
  }

  lemma ForwardFromSlots(turn: Turn, before: nat -> C, after: nat -> C, stride: int, h: nat, va: seq<real>, vb: seq<real>)
    requires h > 0 && |va| == |vb| == h && HalfSlots(turn, Signal(before), h, va, vb) && Landed(after, stride, h, va, vb)
    ensures IsForward(turn, before, after, 2 * h, stride)
  {
    hide HalfSpectrum;
    assert 2 * h / 2 == h;
    forall k: nat | k < h ensures after(k) == HalfSpectrum(turn, Signal(before), 2 * h)(Last(stride, k, h)) {
      assert Last(stride, k, h) < h;
    }
  }

  lemma GatheredSamples(g: nat -> C, h: nat, re: seq<real>, im: seq<real>)
    requires h <= |re| && h <= |im| && forall k: nat :: k < h ==> C(re[k], im[k]) == g(k)
    ensures SlotsAre(g, h, re, im) && Samples(Packed(Signal(g)), h, re, im)
  {
    forall k: nat | k < h ensures g(k) == C(re[k], im[k]) && Packed(Signal(g))(k) == g(k) {
      PackedSignal(g, k);
    }
  }

  method Inverse(turn: Turn, mem: array<real>, s: Split, h: nat, ghost l: nat, b: Buffers, t: Tables)
    requires IsTurn(turn) && h == Pow2(l) && b.Hold(2 * h) && Fits(mem.Length, s, h)
    requires TablesOk(turn, t) && (t.Tables? ==> 2 * h <= t.n)
    requires mem !in b.Objects() && TableObjects(t, NoRecomb) !! b.Objects()
    modifies mem, b.Objects()
    ensures IsInverse(turn, old(Slots(mem[..], s)), Slots(mem[..], s), 2 * h, s.stride)
    ensures OffGridKept(mem[..], old(mem[..]), s, h)
  {
    hide IsTurn, Bin, Unpacked, SlotsAre, OffGridKept, TablesOk, Root, InverseSlots, IsInverse, Slots, Scattered, Fits;
    var n := 2 * h;
    ghost var was := mem[..];
    ghost var before := Slots(was, s);
    Gather(mem, s, b.re, b.im, h);
    assert SlotsAre(before, h, b.re[..], b.im[..]) by { GatheredSamples(before, h, b.re[..], b.im[..]); }
    Unpack(before, b.re, b.im, b.gr, b.gi, h);
    FftComplex(turn, Unpacked(before, n), b.gr, b.gi, n, l + 1, 1, t);
    ghost var va := seq(h, k requires 0 <= k < h reads b.gr => b.gr[2 * k + 0]);
    ghost var vb := seq(h, k requires 0 <= k < h reads b.gr => b.gr[2 * k + 1]);
    assert InverseSlots(turn, before, n, va, vb) by { SpectrumSlots(turn, before, n, b.gr[..], b.gi[..], va, vb); }
    ScatterPairs(b.gr, mem, s, h, va, vb);
    ScatteredLands(was, s, va, vb, h);
    InverseFromSlots(turn, before, Slots(mem[..], s), s.stride, h, va, vb);
  }

  lemma InverseFromSlots(turn: Turn, before: nat -> C, after: nat -> C, stride: int, h: nat, va: seq<real>, vb: seq<real>)
    requires h > 0 && |va| == |vb| == h && Landed(after, stride, h, va, vb) && InverseSlots(turn, before, 2 * h, va, vb)
    ensures IsInverse(turn, before, after, 2 * h, stride)
  {
    hide InverseSlot;
    assert 2 * h / 2 == h;
    forall k: nat | k < h ensures after(k) == InverseSlot(turn, before, 2 * h, Last(stride, k, h)) {
      assert Last(stride, k, h) < h;
    }
  }

  ghost predicate InverseSlots(turn: Turn, g: nat -> C, n: nat, va: seq<real>, vb: seq<real>)
    requires n > 0 && n / 2 <= |va| && n / 2 <= |vb|
  {
    forall k: nat :: k < n / 2 ==> C(va[k], vb[k]) == InverseSlot(turn, g, n, k)
  }

  lemma SpectrumSlots(turn: Turn, g: nat -> C, n: nat, gr: seq<real>, gi: seq<real>, va: seq<real>, vb: seq<real>)
    requires 0 < n <= |gr| && n <= |gi| && n / 2 <= |va| && n / 2 <= |vb| && Spectrum(turn, Unpacked(g, n), n, 1, gr, gi)
    requires forall k: nat :: k < n / 2 ==> va[k] == gr[2 * k] && vb[k] == gr[2 * k + 1]
    ensures InverseSlots(turn, g, n, va, vb)
  {
    hide Bin, Unpacked;
    forall k: nat | k < n / 2 ensures C(va[k], vb[k]) == InverseSlot(turn, g, n, k) {
      assert C(gr[2 * k], gi[2 * k]) == Bin(turn, Unpacked(g, n), n, 1, 2 * k);
      assert C(gr[2 * k + 1], gi[2 * k + 1]) == Bin(turn, Unpacked(g, n), n, 1, 2 * k + 1);
    }
  }

  /** `sh_fft_zrip_inner`.  Forward: slot `k` becomes twice bin `k` of the interleaved real
      signal.  Inverse: the signal becomes the inverse transform of the unpacked spectrum.
      The answer does not depend on which tables and buffers serve the call, and a setup
      too small for the size asked leaves the data alone. */
  method FftZrip(turn: Turn, setup: FftSetup?, mem: array<real>, s: Split, log2n: nat, forward: bool)
    requires IsTurn(turn) && Fits(mem.Length, s, Pow2(log2n) / 2)
    requires setup != null ==> setup.Valid(turn) && mem !in setup.Tabled() && mem !in setup.buffers.Objects()
    modifies mem, if setup != null then setup.buffers.Objects() else {}
    ensures log2n == 0 || (setup != null && setup.n < Pow2(log2n)) ==> mem[..] == old(mem[..])
    ensures log2n > 0 && (setup == null || setup.n >= Pow2(log2n)) ==>
              var (before, after) := (old(Slots(mem[..], s)), Slots(mem[..], s));
              if forward then IsForward(turn, before, after, Pow2(log2n), s.stride)
              else IsInverse(turn, before, after, Pow2(log2n), s.stride)
    ensures OffGridKept(mem[..], old(mem[..]), s, Pow2(log2n) / 2)
  {
    hide IsTurn, IsForward, IsInverse, Fits;
    var n := Pow2(log2n);
    var h := n / 2;
    if h == 0 { return; }
    if setup != null && setup.n < n { return; }
    assert n == 2 * h && h == Pow2(log2n - 1);
    var fast := setup != null && setup.Ready();
    var t, r := NoTables, NoRecomb;
    var b: Buffers;
    if fast {
      t, b := setup.tables, setup.buffers;
      if setup.n == n { r := setup.recomb; }
    } else {
      b := NewBuffers(n);
    }
    if forward {
      Forward(turn, mem, s, h, log2n - 1, b, t, r);
    } else {
      Inverse(turn, mem, s, h, log2n - 1, b, t);
    }
  }

  /** A forward call followed by an inverse one multiplies every sample by `2n`, as long as the
      slots are not all one. */
  lemma ForwardThenInverse(turn: Turn, before: nat -> C, middle: nat -> C, after: nat -> C, log2n: nat, stride: int)
    requires IsTurn(turn) && log2n > 0 && (stride != 0 || log2n == 1)
    requires IsForward(turn, before, middle, Pow2(log2n), stride) && IsInverse(turn, middle, after, Pow2(log2n), stride)
    ensures forall k: nat :: k < Pow2(log2n) / 2 ==> after(k) == Scale((2 * Pow2(log2n)) as real, before(k))
  {
    hide Bin, HalfSpectrum, Unpacked, Scale;
    var n := Pow2(log2n);
    var x := Signal(before);
    assert log2n == 1 ==> n == 2;
    assert forall k: nat :: k < n / 2 ==> Last(stride, k, n / 2) == k;
    forall k: nat | k < n / 2 ensures after(k) == Scale((2 * n) as real, before(k)) {
      assert after(k) == InverseSlot(turn, middle, n, k);
      UnpackedAgree(turn, middle, x, n, 2 * k);
      UnpackedAgree(turn, middle, x, n, 2 * k + 1);
      RoundTrip(turn, x, log2n, 2 * k);
      RoundTrip(turn, x, log2n, 2 * k + 1);
      PackedSignal(before, k);
      ScaleParts((2 * n) as real, before(k));
    }
  }

  lemma UnpackedAgree(turn: Turn, middle: nat -> C, x: nat -> real, n: nat, j: nat)
    requires n > 1 && n % 2 == 0 && forall k: nat :: k < n / 2 ==> middle(k) == HalfSpectrum(turn, x, n)(k)
    ensures Bin(turn, Unpacked(middle, n), n, 1, j) == Bin(turn, Unpacked(HalfSpectrum(turn, x, n), n), n, 1, j)
  {
    hide Bin, HalfSpectrum;
    BinEq(turn, Unpacked(middle, n), Unpacked(HalfSpectrum(turn, x, n), n), n, 1, j);
  }

  lemma ScaleParts(t: real, a: C)
    ensures Scale(t, a) == C(Scale(t, Real(a.re)).re, Scale(t, Real(a.im)).re)
  {
  }
}
