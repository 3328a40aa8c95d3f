/** Whole numbers in English words, and a reader that gets the number back. */
module NumberWords {
  import opened Wrappers

  /** The append-only output buffer, with rollback to a mark. */
  class Buffer {
    var text: string

    constructor ()
      ensures text == ""
    {
      text := "";
    }

    method Add(s: string)
      modifies this
      ensures text == old(text) + s
    {
      text := text + s;
    }

    method Rollback(mark: nat)
      requires mark <= |text|
      modifies this
      ensures text == old(text)[..mark]
    {
      text := text[..mark];
    }
  }

  const TRILLION: nat := 1000000000000
  const LIMIT: nat := 1000 * TRILLION

  function Ones(n: nat): string
    requires n < 20
  {
    ["zero", "one", "two", "three", "four", "five", "six", "seven", "eight", "nine", "ten", "eleven", "twelve",
     "thirteen", "fourteen", "fifteen", "sixteen", "seventeen", "eighteen", "nineteen"][n]
  }

  function Tens(n: nat): string
    requires n < 10
  {
    ["", "", "twenty", "thirty", "forty", "fifty", "sixty", "seventy", "eighty", "ninety"][n]
  }

  /** The four named scales, largest first. */
  function Scale(i: nat): (r: (nat, string))
    requires i < 4
    ensures r.0 > 0
  {
    [(TRILLION, "trillion"), (1000000000, "billion"), (1000000, "million"), (1000, "thousand")][i]
  }

  /** The largest scale not above `n`. */
  function ScaleOf(n: nat): (i: nat)
    requires 1000 <= n
    ensures i < 4 && Scale(i).0 <= n && (n < LIMIT ==> n / Scale(i).0 < 1000)
  {
    if n >= TRILLION then 0 else if n >= 1000000000 then 1 else if n >= 1000000 then 2 else 3
  }

  /** The number word by word. */
  function Words(n: nat): (r: seq<string>)
    requires n < LIMIT
    ensures r != []
    decreases n
  {
    if n < 20 then [Ones(n)]
    else if n < 100 then [Tens(n / 10)] + if n % 10 > 0 then [Ones(n % 10)] else []
    else if n < 1000 then [Ones(n / 100), "hundred"] + if n % 100 > 0 then Words(n % 100) else []
    else
      var (scale, name) := Scale(ScaleOf(n));
      Words(n / scale) + [name] + if n % scale > 0 then Words(n % scale) else []
  }

  function Join(words: seq<string>): string
    requires words != []
  {
    if |words| == 1 then words[0] else words[0] + " " + Join(words[1..])
  }

  /** What is said: nothing from a thousand trillion on. */
  function Spoken(n: nat): Option<string> {
    if n < LIMIT then Some(Join(Words(n))) else None
  }

  lemma {:induction false} JoinAppend(a: seq<string>, b: seq<string>)
    requires a != [] && b != []
    ensures Join(a + b) == Join(a) + " " + Join(b)
  {
    if |a| == 1 {
      assert (a + b)[1..] == b;
    } else {
      JoinAppend(a[1..], b);
      assert (a + b)[1..] == a[1..] + b;
    }
  }

  // ---- the reader

  /** What a word adds to what has been heard so far: `done` from closed scales, `open` below. */
  datatype Heard = Heard(done: nat, open: nat)

  /** A word for a number below a hundred. */
  function Meaning(w: string): Option<nat> {
    if w == "zero" then Some(0) else if w == "one" then Some(1) else if w == "two" then Some(2) else
    if w == "three" then Some(3) else if w == "four" then Some(4) else if w == "five" then Some(5) else
    if w == "six" then Some(6) else if w == "seven" then Some(7) else if w == "eight" then Some(8) else
    if w == "nine" then Some(9) else if w == "ten" then Some(10) else if w == "eleven" then Some(11) else
    if w == "twelve" then Some(12) else if w == "thirteen" then Some(13) else if w == "fourteen" then Some(14) else
    if w == "fifteen" then Some(15) else if w == "sixteen" then Some(16) else if w == "seventeen" then Some(17) else
    if w == "eighteen" then Some(18) else if w == "nineteen" then Some(19) else if w == "twenty" then Some(20) else
    if w == "thirty" then Some(30) else if w == "forty" then Some(40) else if w == "fifty" then Some(50) else
    if w == "sixty" then Some(60) else if w == "seventy" then Some(70) else if w == "eighty" then Some(80) else
    if w == "ninety" then Some(90) else None
  }

  function Hear(h: Heard, w: string): Heard {
    if Meaning(w).Some? then h.(open := h.open + Meaning(w).value)
    else if w == "hundred" then h.(open := h.open * 100)
    else if w == "thousand" then Heard(h.done + h.open * 1000, 0)
    else if w == "million" then Heard(h.done + h.open * 1000000, 0)
    else if w == "billion" then Heard(h.done + h.open * 1000000000, 0)
    else if w == "trillion" then Heard(h.done + h.open * TRILLION, 0)
    else h
  }

  function HearAll(h: Heard, words: seq<string>): Heard
    decreases |words|
  {
    if words == [] then h else Hear(HearAll(h, words[..|words| - 1]), words[|words| - 1])
  }

  lemma {:induction false} HearAppend(h: Heard, a: seq<string>, b: seq<string>)
    ensures HearAll(h, a + b) == HearAll(HearAll(h, a), b)
  {
    if b == [] {
      assert a + b == a;
    } else {
      var n := |b| - 1;
      HearAppend(h, a, b[..n]);
      assert (a + b)[..|a + b| - 1] == a + b[..n];
    }
  }

  /** Lower-case letters only, and at least one. */
  predicate IsWord(w: string) {
    w != "" && forall k :: 0 <= k < |w| ==> 'a' <= w[k] <= 'z'
  }

  lemma MeaningOfOnes(n: nat)
    requires n < 20
    ensures Meaning(Ones(n)) == Some(n)
  {
  }

  lemma MeaningOfTens(n: nat)
    requires 2 <= n < 10
    ensures Meaning(Tens(n)) == Some(10 * n)
  {
  }

  lemma OnesAreWords(n: nat)
    requires n < 20
    ensures IsWord(Ones(n))
  {
  }

  lemma TensAreWords(n: nat)
    requires 2 <= n < 10
    ensures IsWord(Tens(n))
  {
  }

  lemma HearOnes(h: Heard, n: nat)
    requires n < 20
    ensures IsWord(Ones(n)) && HearAll(h, [Ones(n)]) == h.(open := h.open + n)
  {
    hide Meaning, Ones, IsWord;
    MeaningOfOnes(n);
    OnesAreWords(n);
    HearOne(h, Ones(n));
  }

  lemma HearTens(h: Heard, n: nat)
    requires 2 <= n < 10
    ensures IsWord(Tens(n)) && HearAll(h, [Tens(n)]) == h.(open := h.open + 10 * n)
  {
    hide Meaning, Tens, IsWord;
    MeaningOfTens(n);
    TensAreWords(n);
    HearOne(h, Tens(n));
  }

  lemma HearHundred(h: Heard)
    ensures IsWord("hundred") && HearAll(h, ["hundred"]) == h.(open := h.open * 100)
  {
    assert Meaning("hundred") == None;
    HearOne(h, "hundred");
  }

  lemma HearScale(h: Heard, i: nat)
    requires i < 4
    ensures IsWord(Scale(i).1) && HearAll(h, [Scale(i).1]) == Heard(h.done + h.open * Scale(i).0, 0)
  {
    var name := Scale(i).1;
    assert Meaning(name) == None;
    HearOne(h, name);
  }

  lemma HearOne(h: Heard, w: string)
    ensures HearAll(h, [w]) == Hear(h, w)
  {
    assert [w][..0] == [];
    assert HearAll(h, []) == h;
  }

  predicate AllWords(ws: seq<string>) {
    forall k :: 0 <= k < |ws| ==> IsWord(ws[k])
  }

  lemma SmallWords(n: nat, h: Heard)
    requires n < 100
    ensures AllWords(Words(n)) && HearAll(h, Words(n)) == h.(open := h.open + n)
  {
    hide IsWord, Ones, Tens, HearAll;
    if n < 20 {
      HearOnes(h, n);
    } else {
      HearTens(h, n / 10);
      if n % 10 > 0 {
        HearAppend(h, [Tens(n / 10)], [Ones(n % 10)]);
        HearOnes(h.(open := h.open + 10 * (n / 10)), n % 10);
      } else {
        assert Words(n) == [Tens(n / 10)];
      }
    }
  }

  lemma HundredWords(n: nat, done: nat)
    requires n < 1000
    ensures AllWords(Words(n)) && HearAll(Heard(done, 0), Words(n)) == Heard(done, n)
  {
    hide IsWord, Ones, HearAll, Tens;
    var h := Heard(done, 0);
    if n < 100 {
      SmallWords(n, h);
    } else {
      var head := [Ones(n / 100), "hundred"];
      assert head == [Ones(n / 100)] + ["hundred"];
      HearOnes(h, n / 100);
      HearHundred(Heard(done, n / 100));
      HearAppend(h, [Ones(n / 100)], ["hundred"]);
      if n % 100 > 0 {
        HearAppend(h, head, Words(n % 100));
        SmallWords(n % 100, Heard(done, n / 100 * 100));
      } else {
        assert Words(n) == head;
      }
    }
  }

  /** Hearing a number's words from a closed scale on adds exactly the number. */
  lemma {:induction false} WordsAreHeard(n: nat, done: nat)
    requires n < LIMIT
    ensures AllWords(Words(n))
    ensures var h := HearAll(Heard(done, 0), Words(n)); h.done + h.open == done + n
    decreases n
  {
    hide IsWord, HearAll, Scale, AllWords;
    if n < 1000 {
      HundredWords(n, done);
    } else {
      var i := ScaleOf(n);
      var q, r := n / Scale(i).0, n % Scale(i).0;
      Division(n, Scale(i).0);
      HundredWords(q, done);
      HearScale(Heard(done, q), i);
      HearAppend(Heard(done, 0), Words(q), [Scale(i).1]);
      AppendWord(Words(q), Scale(i).1);
      if r > 0 {
        WordsAreHeard(r, done + q * Scale(i).0);
        HearAppend(Heard(done, 0), Words(q) + [Scale(i).1], Words(r));
        AppendWords(Words(q) + [Scale(i).1], Words(r));
      } else {
        assert Words(n) == Words(q) + [Scale(i).1];
      }
    }
  }

  lemma Division(n: nat, d: nat)
    requires d > 0
    ensures n == n / d * d + n % d && n % d < d
  {
  }

  lemma AppendWord(a: seq<string>, w: string)
    requires AllWords(a) && IsWord(w)
    ensures AllWords(a + [w])
  {
  }

  lemma AppendWords(a: seq<string>, b: seq<string>)
    requires AllWords(a) && AllWords(b)
    ensures AllWords(a + b)
  {
  }

  // ---- text

  /** The words of a text, cut at single spaces. */
  function Split(text: string): (r: seq<string>)
    ensures r != []
  {
    if text == "" then [""]
    else
      var rest := Split(text[1..]);
      if text[0] == ' ' then [""] + rest else [[text[0]] + rest[0]] + rest[1..]
  }

  lemma {:induction false} SplitWord(w: string, rest: string)
    requires forall k :: 0 <= k < |w| ==> w[k] != ' '
    ensures Split(w + " " + rest) == [w] + Split(rest)
    ensures Split(w) == [w]
  {
    var text := w + " " + rest;
    if w == "" {
      assert text[0] == ' ' && text[1..] == rest;
    } else {
      SplitWord(w[1..], rest);
      assert text[0] == w[0] && text[1..] == w[1..] + " " + rest;
      assert [w[0]] + w[1..] == w;
    }
  }

  lemma {:induction false} SplitJoin(ws: seq<string>)
    requires ws != [] && AllWords(ws)
    ensures Split(Join(ws)) == ws
  {
    if |ws| == 1 {
      SplitWord(ws[0], "");
    } else {
      SplitJoin(ws[1..]);
      SplitWord(ws[0], Join(ws[1..]));
    }
  }

  /** Read a spoken number back. */
  function ReadBack(text: string): nat {
    var h := HearAll(Heard(0, 0), Split(text));
    h.done + h.open
  }

  /** Exactly the numbers below a thousand trillion can be said, and hearing one gives it back. */
  lemma SpokenIsFaithful(n: nat)
    ensures Spoken(n).Some? <==> n < LIMIT
    ensures Spoken(n).Some? ==> ReadBack(Spoken(n).value) == n
  {
    if n < LIMIT {
      WordsAreHeard(n, 0);
      SplitJoin(Words(n));
    }
  }

  lemma SpokenIsInjective(m: nat, n: nat)
    requires Spoken(m) == Spoken(n) && Spoken(m).Some?
    ensures m == n
  {
    SpokenIsFaithful(m);
    SpokenIsFaithful(n);
  }

  // ---- the recursive printer

  method ToWords(b: Buffer, n: nat) returns (ok: bool)
    modifies b
    ensures ok == Spoken(n).Some?
    ensures b.text == old(b.text) + if ok then Spoken(n).value else ""
    decreases n, 1
  {
    hide Ones, Tens, Scale, Join;
    if n < 100 {
      BelowHundred(b, n);
      return true;
    }
    if n < 1000 {
      ok := Hundreds(b, n);
      return;
    }
    if n >= LIMIT {
      return false;
    }
    var i := 0;
    while i < 4
      invariant 0 <= i <= 4 && b.text == old(b.text)
      invariant forall k :: 0 <= k < i ==> n < Scale(k).0
    {
      if n >= Scale(i).0 {
        FirstScale(n, i);
        ok := AtScale(b, n);
        return;
      }
      i := i + 1;
    }
    SomeScale(n);
    assert false;
    ok := false;
  }

  method Hundreds(b: Buffer, n: nat) returns (ok: bool)
    requires 100 <= n < 1000
    modifies b
    ensures ok && Spoken(n).Some? && b.text == old(b.text) + Spoken(n).value
    decreases n, 0
  {
    hide Ones, Tens, Scale, Join, Words;
    HundredsSaid(n);
    JoinTwo(Ones(n / 100), "hundred");
    b.Add(Ones(n / 100));
    b.Add(" hundred");
    if n % 100 > 0 {
      JoinAppend([Ones(n / 100), "hundred"], Words(n % 100));
      b.Add(" ");
      ok := ToWords(b, n % 100);
    } else {
      ok := true;
    }
  }

  lemma HundredsSaid(n: nat)
    requires 100 <= n < 1000
    ensures Words(n) == if n % 100 > 0 then [Ones(n / 100), "hundred"] + Words(n % 100) else [Ones(n / 100), "hundred"]
  {
    hide Ones, Tens, Scale;
  }

  method BelowHundred(b: Buffer, n: nat)
    requires n < 100
    modifies b
    ensures b.text == old(b.text) + Spoken(n).value
  {
    hide Ones, Tens, Join;
    if n < 20 {
      JoinOne(Ones(n));
      b.Add(Ones(n));
      return;
    }
    JoinOne(Tens(n / 10));
    b.Add(Tens(n / 10));
    if n % 10 > 0 {
      JoinTwo(Tens(n / 10), Ones(n % 10));
      assert Words(n) == [Tens(n / 10), Ones(n % 10)];
      b.Add(" ");
      b.Add(Ones(n % 10));
    } else {
      assert Words(n) == [Tens(n / 10)];
    }
  }

  /** How many of the scale, its name, and what is left over. */
  method AtScale(b: Buffer, n: nat) returns (ok: bool)
    requires 1000 <= n < LIMIT
    modifies b
    ensures ok && b.text == old(b.text) + Spoken(n).value
    decreases n, 0
  {
    hide Ones, Tens, Scale, Join, Words;
    var (scale, name) := Scale(ScaleOf(n));
    ScaleParts(n);
    var q, r := n / scale, n % scale;
    var _ := ToWords(b, q);
    b.Add(" ");
    b.Add(name);
    if r > 0 {
      b.Add(" ");
      ok := ToWords(b, r);
    } else {
      ok := true;
    }
  }

  lemma ScaleParts(n: nat)
    requires 1000 <= n < LIMIT
    ensures var (scale, name) := Scale(ScaleOf(n));
      && n / scale < n && n % scale < n
      && Spoken(n).value == Spoken(n / scale).value + " " + name +
                            if n % scale > 0 then " " + Spoken(n % scale).value else ""
  {
    hide Join;
    var (scale, name) := Scale(ScaleOf(n));
    JoinAppend(Words(n / scale), [name]);
    JoinOne(name);
    if n % scale > 0 {
      JoinAppend(Words(n / scale) + [name], Words(n % scale));
    } else {
      assert Words(n) == Words(n / scale) + [name];
    }
  }

  lemma JoinOne(w: string)
    ensures Join([w]) == w
  {
  }

  lemma JoinTwo(v: string, w: string)
    ensures Join([v, w]) == v + " " + w
  {
    assert [v, w][1..] == [w];
  }

  /** The first scale that fits is the one the words are built from. */
  lemma FirstScale(n: nat, i: nat)
    requires i < 4 && 1000 <= n < LIMIT && n >= Scale(i).0 && forall k :: 0 <= k < i ==> n < Scale(k).0
    ensures ScaleOf(n) == i && n / Scale(i).0 < 1000 && n / Scale(i).0 < n && n % Scale(i).0 < n
  {
    assert i > 0 ==> n < Scale(0).0;
    assert i > 1 ==> n < Scale(1).0;
    assert i > 2 ==> n < Scale(2).0;
  }

  lemma SomeScale(n: nat)
    requires 1000 <= n
    ensures n >= Scale(3).0
  {
  }
}
