/** What a rewritten token looks like: plain words, or the same digits grouped. */
module NumberShapes {
  import opened Characters
  import opened Wrappers
  import opened NumberWords
  import opened NumberToken
  import opened NumberRewrite

  predicate IsPlain(c: char) { 'a' <= c <= 'z' || c == ' ' }

  /** Lower-case letters and spaces, with a letter at the end. */
  predicate Plain(s: string) {
    s != "" && (forall k :: 0 <= k < |s| ==> IsPlain(s[k])) && s[|s| - 1] != ' '
  }

  lemma PlainAppend(a: string, b: string)
    requires (forall k :: 0 <= k < |a| ==> IsPlain(a[k])) && Plain(b)
    ensures Plain(a + b)
  {
  }

  lemma PlainThen(a: string, sep: string, b: string)
    requires Plain(a) && Plain(b) && (forall k :: 0 <= k < |sep| ==> IsPlain(sep[k]))
    ensures Plain(a + sep + b)
  {
    PlainAppend(a + sep, b);
  }

  lemma WordIsPlain(w: string)
    requires IsWord(w)
    ensures Plain(w)
  {
    assert forall k :: 0 <= k < |w| ==> IsPlain(w[k]);
  }

  lemma {:induction false} JoinIsPlain(ws: seq<string>)
    requires ws != [] && AllWords(ws)
    ensures Plain(Join(ws))
  {
    hide IsWord, Plain;
    WordIsPlain(ws[0]);
    if |ws| > 1 {
      JoinIsPlain(ws[1..]);
      PlainThen(ws[0], " ", Join(ws[1..]));
    }
  }

  lemma SpokenIsPlain(n: nat)
    requires Spoken(n).Some?
    ensures Plain(Spoken(n).value)
  {
    WordsAreHeard(n, 0);
    JoinIsPlain(Words(n));
  }

  lemma {:induction false} AloudIsPlain(p: string)
    requires AllDigits(p) && p != ""
    ensures Plain(Aloud(p))
  {
    hide Plain, Ones;
    var n := |p| - 1;
    OnesAreWords(Digit(p[n]));
    WordIsPlain(Ones(Digit(p[n])));
    if n > 0 {
      AloudIsPlain(p[..n]);
      PlainThen(Aloud(p[..n]), " ", Ones(Digit(p[n])));
    }
  }

  lemma PartIsPlain(p: string)
    requires AllDigits(p) && SpokenPart(p).Some?
    ensures Plain(SpokenPart(p).value)
  {
    SpokenIsPlain(Value(p));
  }

  lemma {:induction false} VersionIsPlain(parts: seq<string>)
    requires parts != [] && DigitParts(parts) && SpokenVersion(parts).Some?
    ensures Plain(SpokenVersion(parts).value)
  {
    hide Plain, SpokenPart;
    var n := |parts| - 1;
    PartIsPlain(parts[n]);
    if n > 0 {
      VersionIsPlain(parts[..n]);
      PlainThen(SpokenVersion(parts[..n]).value, " point ", SpokenPart(parts[n]).value);
    }
  }

  lemma SignedIsPlain(negative: bool, o: Option<string>)
    requires o.Some? && Plain(o.value)
    ensures Plain(Signed(negative, "minus ", o).value)
  {
    PlainAppend("minus ", o.value);
  }

  /** A quantity is put in plain words, or its digits are grouped. */
  lemma QuantityShape(parts: seq<string>, negative: bool, style: Style)
    requires 1 <= |parts| <= 2 && DigitParts(parts) && "" !in parts && Quantity(parts, negative, style).Some?
    ensures Plain(Quantity(parts, negative, style).value) ||
            (style != InWords && |parts| == 1 && |parts[0]| >= LONG_DIGITS)
  {
    hide Plain, SpokenPart, Aloud, Group;
    assert parts[0] in parts;
    if style == InWords {
      PartIsPlain(parts[0]);
      var whole := SpokenPart(parts[0]).value;
      if |parts| == 2 {
        assert parts[1] in parts;
        AloudIsPlain(parts[1]);
        PlainThen(whole, " point ", Aloud(parts[1]));
        SignedIsPlain(negative, Some(whole + " point " + Aloud(parts[1])));
      } else {
        SignedIsPlain(negative, Some(whole));
      }
    } else if |parts| == 2 {
      assert parts[1] in parts;
      AloudIsPlain(parts[1]);
      PlainAppend("zero point ", Aloud(parts[1]));
      SignedIsPlain(negative, Some("zero point " + Aloud(parts[1])));
    }
  }

  /** A sign and grouped digits. */
  function SignOf(tok: string): string { if tok != "" && tok[0] == '-' then "-" else "" }

  ghost predicate LongRun(tok: string, d: string) {
    && NoCommas(Unsigned(tok)) == d && AllDigits(d) && LONG_DIGITS <= |d| <= CLEAN_MAX
  }

  lemma RewriteShape(tok: string, style: Style)
    requires BodyText(Unsigned(tok)) && Rewrite(tok, style).Some?
    ensures Plain(Rewrite(tok, style).value) ||
            (style != InWords && LongRun(tok, NoCommas(Unsigned(tok))) &&
             Rewrite(tok, style).value == SignOf(tok) + Group(NoCommas(Unsigned(tok))))
  {
    hide Plain, SpokenPart, Aloud, SpokenVersion, NoCommas, SplitDots, Group;
    BodyParts(Unsigned(tok));
    var parts := Parts(Unsigned(tok)).value;
    var negative := tok != "" && tok[0] == '-';
    if |parts| > 2 {
      VersionIsPlain(parts);
      SignedIsPlain(negative, SpokenVersion(parts));
    } else {
      QuantityShape(parts, negative, style);
      if |parts| == 1 {
        OnePart(NoCommas(Unsigned(tok)));
      }
    }
  }

  lemma {:induction false} OnePart(s: string)
    ensures |SplitDots(s)| == 1 <==> '.' !in s
    ensures |SplitDots(s)| == 1 ==> SplitDots(s) == [s]
  {
    if s != "" {
      OnePart(s[1..]);
      if s[0] != '.' {
        assert s == [s[0]] + s[1..];
        assert '.' in s <==> '.' in s[1..];
        if '.' !in s {
          assert SplitDots(s[1..])[1..] == [];
        }
      }
    }
  }

  lemma {:induction false} GroupBody(d: string)
    requires AllDigits(d) && d != ""
    ensures Group(d) != "" && IsDigit(Group(d)[0]) && IsDigit(Group(d)[|Group(d)| - 1])
    ensures forall k :: 0 <= k < |Group(d)| ==> IsRun(Group(d)[k])
  {
    if |d| > 3 {
      GroupBody(d[..|d| - 3]);
    }
  }

  /** Grouped digits are a token that is rewritten to itself. */
  lemma GroupedAgain(sign: string, d: string, style: Style)
    requires (sign == "" || sign == "-") && AllDigits(d) && LONG_DIGITS <= |d| <= CLEAN_MAX && style != InWords
    ensures Unsigned(sign + Group(d)) == Group(d) && BodyText(Group(d)) && Token(sign + Group(d))
    ensures Rewrite(sign + Group(d), style) == Some(sign + Group(d))
  {
    hide NoCommas, SplitDots, Group, SpokenVersion, Aloud, SpokenPart, Tail;
    var w := sign + Group(d);
    GroupBody(d);
    assert Unsigned(w) == Group(d);
    GroupKeepsDigits(d);
    OnePart(d);
    TailOfRun(Group(d)[1..], "");
    assert Group(d)[1..] + "" == Group(d)[1..];
    assert "" !in [d];
    assert Parts(Group(d)) == Some([d]);
  }
}
