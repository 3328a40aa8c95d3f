/** LEB128 numbers (section 7.6 of DWARF version 4), read into 32 bits. */
module DyldLeb {
  import opened Wrappers

  type Byte = b: int | 0 <= b < 256

  const WORD: nat := 0x1_0000_0000

  function Pow128(k: nat): (r: nat)
    ensures r > 0
  {
    if k == 0 then 1 else 128 * Pow128(k - 1)
  }

  /** The unsigned value of a whole encoding. */
  function UnsignedValue(s: seq<Byte>): nat {
    if s == [] then 0 else s[0] % 128 + 128 * UnsignedValue(s[1..])
  }

  /** The signed value: the last byte's bit 6 is the sign. */
  function SignedValue(s: seq<Byte>): int {
    UnsignedValue(s) - if s != [] && s[|s| - 1] % 128 >= 64 then Pow128(|s|) else 0
  }

  /** The length of the encoding at the start: up to the first byte below 128. */
  function Length(s: seq<Byte>): (r: Option<nat>)
    ensures r.Some? ==> 0 < r.value <= |s|
  {
    if s == [] then None
    else if s[0] < 128 then Some(1)
    else
      var n := Length(s[1..]);
      if n.None? then None else Some(1 + n.value)
  }

  /** A value and how many bytes it took; nothing when the bytes run out. */
  function Unsigned(s: seq<Byte>): (r: Option<(nat, nat)>)
    ensures r.Some? ==> r.value.0 < WORD && 0 < r.value.1 <= |s|
  {
    var n := Length(s);
    if n.None? then None else Some((UnsignedValue(s[..n.value]) % WORD, n.value))
  }

  /** A 32-bit word as a signed number. */
  function ToSigned(v: nat): int
    requires v < WORD
  {
    if v < WORD / 2 then v else v - WORD
  }

  function Signed(s: seq<Byte>): (r: Option<(int, nat)>)
    ensures r.Some? ==> 0 < r.value.1 <= |s|
  {
    var n := Length(s);
    if n.None? then None else Some((ToSigned(SignedValue(s[..n.value]) % WORD), n.value))
  }

  function EncodeUnsigned(n: nat): seq<Byte> {
    if n < 128 then [n] else [n % 128 + 128] + EncodeUnsigned(n / 128)
  }

  function EncodeSigned(n: int): seq<Byte>
    decreases if n < 0 then -n else n
  {
    if -64 <= n < 64 then [n % 128] else [n % 128 + 128] + EncodeSigned(n / 128)
  }

  // ---- decoding inverts encoding

  lemma {:induction false} LengthOfUnsigned(n: nat, rest: seq<Byte>)
    ensures Length(EncodeUnsigned(n) + rest) == Some(|EncodeUnsigned(n)|)
    ensures UnsignedValue(EncodeUnsigned(n)) == n
  {
    var e := EncodeUnsigned(n);
    if n >= 128 {
      LengthOfUnsigned(n / 128, rest);
      assert (e + rest)[1..] == EncodeUnsigned(n / 128) + rest;
    } else {
      assert e[1..] == [];
    }
  }

  /** Every number comes back, modulo the word. */
  lemma UnsignedRoundTrip(n: nat, rest: seq<Byte>)
    ensures Unsigned(EncodeUnsigned(n) + rest) == Some((n % WORD, |EncodeUnsigned(n)|))
  {
    LengthOfUnsigned(n, rest);
    assert (EncodeUnsigned(n) + rest)[..|EncodeUnsigned(n)|] == EncodeUnsigned(n);
  }

  lemma OneByte(n: int)
    requires -64 <= n < 64
    ensures SignedValue([n % 128]) == n
  {
    var b: Byte := n % 128;
    assert [b][1..] == [] && UnsignedValue([]) == 0 && UnsignedValue([b]) == b;
    assert Pow128(1) == 128 * Pow128(0);
    if n < 0 {
      assert b == n + 128;
    } else {
      assert b == n;
    }
  }

  lemma {:induction false} LengthOfSigned(n: int, rest: seq<Byte>)
    ensures Length(EncodeSigned(n) + rest) == Some(|EncodeSigned(n)|)
    decreases if n < 0 then -n else n
  {
    var e := EncodeSigned(n);
    if -64 <= n < 64 {
      OneByte(n);
    } else {
      LengthOfSigned(n / 128, rest);
      assert (e + rest)[1..] == EncodeSigned(n / 128) + rest;
    }
  }

  lemma {:induction false} ValueOfSigned(n: int)
    ensures SignedValue(EncodeSigned(n)) == n
    decreases if n < 0 then -n else n
  {
    hide SignedValue;
    if -64 <= n < 64 {
      OneByte(n);
    } else {
      ValueOfSigned(n / 128);
      SignedPush(n % 128 + 128, EncodeSigned(n / 128));
    }
  }

  lemma SignedPush(b: Byte, f: seq<Byte>)
    requires f != []
    ensures SignedValue([b] + f) == b % 128 + 128 * SignedValue(f)
  {
    var e := [b] + f;
    assert e[1..] == f && e[|e| - 1] == f[|f| - 1];
    assert Pow128(|e|) == 128 * Pow128(|f|);
  }

  lemma SignedRoundTrip(n: int, rest: seq<Byte>)
    ensures Signed(EncodeSigned(n) + rest) == Some((ToSigned(n % WORD), |EncodeSigned(n)|))
    ensures -(WORD / 2) <= n < WORD / 2 ==> ToSigned(n % WORD) == n
  {
    hide EncodeSigned, Length, SignedValue, ToSigned;
    LengthOfSigned(n, rest);
    ValueOfSigned(n);
    assert (EncodeSigned(n) + rest)[..|EncodeSigned(n)|] == EncodeSigned(n);
    if -(WORD / 2) <= n < WORD / 2 {
      SmallSigned(n);
    }
  }

  lemma SmallSigned(n: int)
    requires -(WORD / 2) <= n < WORD / 2
    ensures ToSigned(n % WORD) == n
  {
    assert n % WORD == if n < 0 then n + WORD else n;
  }

  // ---- the loops

  lemma {:induction false} ValuePush(s: seq<Byte>, b: Byte)
    ensures UnsignedValue(s + [b]) == UnsignedValue(s) + (b % 128) * Pow128(|s|)
  {
    if s == [] {
      assert [b][1..] == [];
    } else {
      ValuePush(s[1..], b);
      assert (s + [b])[1..] == s[1..] + [b];
      var v, w := UnsignedValue(s[1..]), (b % 128) * Pow128(|s| - 1);
      assert 128 * (v + w) == 128 * v + 128 * w;
      assert 128 * w == (b % 128) * (128 * Pow128(|s| - 1));
    }
  }

  /** From the sixth byte on nothing reaches the word. */
  lemma {:induction false} HighBytesVanish(k: nat, c: nat)
    requires k >= 5
    ensures (c * Pow128(k)) % WORD == 0
  {
    if k == 5 {
      assert Pow128(5) == 8 * WORD by { Pow128Five(); }
      assert c * (8 * WORD) == (c * 8) * WORD;
      Multiple(c * 8);
    } else {
      HighBytesVanish(k - 1, c * 128);
      assert c * (128 * Pow128(k - 1)) == (c * 128) * Pow128(k - 1);
    }
  }

  lemma Pow128Five()
    ensures Pow128(1) == 128 && Pow128(2) == 16384 && Pow128(3) == 2097152 && Pow128(4) == 268435456
    ensures Pow128(5) == 8 * WORD
  {
    assert Pow128(1) == 128 * Pow128(0);
    assert Pow128(2) == 128 * Pow128(1);
    assert Pow128(3) == 128 * Pow128(2);
    assert Pow128(4) == 128 * Pow128(3);
    assert Pow128(5) == 128 * Pow128(4);
  }

  lemma Multiple(m: nat)
    ensures (m * WORD) % WORD == 0
  {
  }

  lemma AddMod(a: int, c: int)
    ensures (a % WORD + c) % WORD == (a + c) % WORD
    ensures c % WORD == 0 ==> a % WORD == (a + c) % WORD
  {
  }

  /** Seven bits put in above those already there: the places are free, so it adds, and above the word nothing is kept. */
  function Shifted(v: nat, b: Byte, k: nat): nat {
    if 7 * k < 32 then (v + (b % 128) * Pow128(k)) % WORD else v
  }

  lemma ShiftedIs(s: seq<Byte>, b: Byte)
    ensures Shifted(UnsignedValue(s) % WORD, b, |s|) == UnsignedValue(s + [b]) % WORD
  {
    hide UnsignedValue, Pow128;
    ValuePush(s, b);
    ShiftedAdds(UnsignedValue(s), b, |s|);
  }

  lemma ShiftedAdds(v: nat, b: Byte, k: nat)
    ensures Shifted(v % WORD, b, k) == (v + (b % 128) * Pow128(k)) % WORD
  {
    hide Pow128;
    var c := (b % 128) * Pow128(k);
    AddMod(v, c);
    if k >= 5 {
      HighBytesVanish(k, b % 128);
    }
  }

  lemma {:induction false} LengthStep(s: seq<Byte>, n: nat)
    requires n <= |s| && forall k :: 0 <= k < n ==> s[k] >= 128
    ensures n == |s| ==> Length(s).None?
    ensures n < |s| && s[n] < 128 ==> Length(s) == Some(n + 1)
  {
    if n > 0 {
      LengthStep(s[1..], n - 1);
    }
  }

  /** The bytes of a number at `pos`, folded as they are read. */
  method ReadBytes(s: seq<Byte>, pos: nat) returns (r: Option<(nat, nat)>)
    requires pos <= |s|
    ensures Length(s[pos..]).None? ==> r.None?
    ensures Length(s[pos..]).Some? ==> r == Some((UnsignedValue(s[pos..][..Length(s[pos..]).value]) % WORD, Length(s[pos..]).value))
  {
    hide Length, UnsignedValue, Shifted;
    ghost var t := s[pos..];
    var v, n := 0, 0;
    assert UnsignedValue(t[..0]) % WORD == 0 by { EmptyValue(); }
    while pos + n < |s|
      invariant 0 <= n <= |t| && v == UnsignedValue(t[..n]) % WORD
      invariant forall k :: 0 <= k < n ==> t[k] >= 128
    {
      var b := s[pos + n];
      ShiftedIs(t[..n], b);
      assert t[..n + 1] == t[..n] + [b];
      v := Shifted(v, b, n);
      if b < 128 {
        LengthStep(t, n);
        return Some((v, n + 1));
      }
      n := n + 1;
    }
    LengthStep(t, n);
    r := None;
  }

  lemma EmptyValue()
    ensures UnsignedValue([]) == 0
  {
  }

  method ReadUnsigned(s: seq<Byte>, pos: nat) returns (r: Option<(nat, nat)>)
    requires pos <= |s|
    ensures r == Unsigned(s[pos..])
  {
    hide UnsignedValue;
    r := ReadBytes(s, pos);
  }

  method ReadSigned(s: seq<Byte>, pos: nat) returns (r: Option<(int, nat)>)
    requires pos <= |s|
    ensures r == Signed(s[pos..])
  {
    hide UnsignedValue, Pow128;
    var v := ReadBytes(s, pos);
    if v.None? {
      return None;
    }
    var n := v.value.1;
    var last := s[pos + n - 1];
    ghost var t := s[pos..][..n];
    assert t[|t| - 1] == last;
    var word: nat := v.value.0;
    if last % 128 >= 64 {
      SignBit(UnsignedValue(t), n);
      if 7 * n < 32 {
        word := (word + WORD - Pow128(n)) % WORD;
      }
    }
    r := Some((ToSigned(word), n));
  }

  /** Taking the sign's weight off matters only inside the word. */
  lemma SignBit(u: nat, n: nat)
    ensures 7 * n < 32 ==> Pow128(n) <= WORD && (u % WORD + WORD - Pow128(n)) % WORD == (u - Pow128(n)) % WORD
    ensures 7 * n >= 32 ==> u % WORD == (u - Pow128(n)) % WORD
  {
    Pow128Five();
    if 7 * n < 32 {
      assert n <= 4;
      AddMod(u, WORD - Pow128(n));
      AddMod(u - Pow128(n), WORD);
    } else {
      HighBytesVanish(n, 1);
      AddMod(u - Pow128(n), Pow128(n));
    }
  }
}
