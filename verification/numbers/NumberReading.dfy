/** Reading a rewrite back: it says the token's own number, digit by digit and part by part. */
module NumberReading {
  import opened Characters
  import opened Wrappers
  import opened NumberWords
  import opened NumberToken
  import opened NumberRewrite
  import opened NumberShapes
  import opened NumberExpand
  import opened NumberPattern

  // ---- the token, character by character

  /** The digits of a token, dot by dot; signs and commas do not count. */
  function DigitLists(s: string): (r: seq<seq<nat>>)
    ensures r != []
  {
    if s == "" then [[]]
    else
      var rest := DigitLists(s[1..]);
      if s[0] == '.' then [[]] + rest
      else if IsDigit(s[0]) then [[s[0] as int - 48] + rest[0]] + rest[1..]
      else rest
  }

  function Pow10(n: nat): nat { if n == 0 then 1 else 10 * Pow10(n - 1) }

  /** Digits by the places they stand in. */
  function NumberOf(ds: seq<nat>): nat {
    if ds == [] then 0 else ds[0] * Pow10(|ds| - 1) + NumberOf(ds[1..])
  }

  function TotalLen(lists: seq<seq<nat>>): nat {
    if lists == [] then 0 else |lists[0]| + TotalLen(lists[1..])
  }

  // ---- the rewrite, word by word

  /** The words between one "point" and the next. */
  function CutAtPoints(ws: seq<string>): (r: seq<seq<string>>)
    ensures r != []
  {
    if ws == [] then [[]]
    else
      var n := |ws| - 1;
      var r := CutAtPoints(ws[..n]);
      if ws[n] == "point" then r + [[]] else r[..|r| - 1] + [r[|r| - 1] + [ws[n]]]
  }

  predicate NumberWord(w: string) {
    Meaning(w).Some? || w == "hundred" || w == "thousand" || w == "million" || w == "billion" || w == "trillion"
  }

  /** Words for one whole number. */
  predicate SaysNumber(ws: seq<string>, n: nat) {
    && (forall k :: 0 <= k < |ws| ==> NumberWord(ws[k])) && ws != []
    && HearAll(Heard(0, 0), ws).done + HearAll(Heard(0, 0), ws).open == n
  }

  /** One word for each digit, in order. */
  predicate SaysDigits(ws: seq<string>, ds: seq<nat>) {
    && |ws| == |ds|
    && forall k :: 0 <= k < |ds| ==> ds[k] < 10 && Meaning(ws[k]) == Some(ds[k])
  }

  /** The words of the parts, whole numbers except for the digits of a fraction. */
  predicate SaysParts(pieces: seq<seq<string>>, lists: seq<seq<nat>>) {
    && |pieces| == |lists|
    && if |lists| == 2 then SaysNumber(pieces[0], NumberOf(lists[0])) && SaysDigits(pieces[1], lists[1])
       else forall k :: 0 <= k < |lists| ==> SaysNumber(pieces[k], NumberOf(lists[k]))
  }

  /** A text in words: "minus" exactly for a negative one, and then the parts. */
  ghost predicate Says(text: string, negative: bool, lists: seq<seq<nat>>) {
    exists ws :: Split(text) == (if negative then ["minus"] else []) + ws && SaysParts(CutAtPoints(ws), lists)
  }

  // ---- a token's parts are its digits

  function DigitsOf(p: string): seq<nat>
    requires AllDigits(p)
  {
    seq(|p|, k requires 0 <= k < |p| => Digit(p[k]))
  }

  lemma {:induction false} PartsAreDigits(s: string)
    requires BodyText(s)
    ensures DigitParts(SplitDots(NoCommas(s))) && |DigitLists(s)| == |SplitDots(NoCommas(s))|
    ensures forall k :: 0 <= k < |DigitLists(s)| ==> DigitLists(s)[k] == DigitsOf(SplitDots(NoCommas(s))[k])
  {
    hide NoCommas, SplitDots, DigitsOf;
    BodyParts(s);
    if s == "" {
      NoParts();
    } else {
      BodyParts(s[1..]);
      PartsAreDigits(s[1..]);
      OneCharMore(s);
      NoParts();
    }
  }

  lemma NoParts()
    ensures NoCommas("") == "" && SplitDots("") == [""] && DigitsOf("") == []
  {
  }

  lemma OneCharKept(s: string)
    requires s != ""
    ensures NoCommas(s) == if s[0] == ',' then NoCommas(s[1..]) else [s[0]] + NoCommas(s[1..])
  {
    assert "" + NoCommas(s[1..]) == NoCommas(s[1..]);
  }

  lemma OneCharSplit(c: char, t: string)
    ensures SplitDots([c] + t) == if c == '.' then [""] + SplitDots(t) else [[c] + SplitDots(t)[0]] + SplitDots(t)[1..]
  {
    assert ([c] + t)[1..] == t;
  }

  lemma OneDigitMore(c: char, p: string)
    requires IsDigit(c) && AllDigits(p)
    ensures AllDigits([c] + p) && DigitsOf([c] + p) == [c as int - 48] + DigitsOf(p)
  {
  }

  lemma OneCharMore(s: string)
    requires s != "" && BodyText(s) && DigitParts(SplitDots(NoCommas(s[1..])))
    ensures var rest := SplitDots(NoCommas(s[1..]));
      SplitDots(NoCommas(s)) == if s[0] == ',' then rest else if s[0] == '.' then [""] + rest
                                else [[s[0]] + rest[0]] + rest[1..]
    ensures var front := SplitDots(NoCommas(s[1..]))[0];
      IsDigit(s[0]) ==> AllDigits([s[0]] + front) && DigitsOf([s[0]] + front) == [s[0] as int - 48] + DigitsOf(front)
  {
    var t := NoCommas(s[1..]);
    OneCharKept(s);
    OneCharSplit(s[0], t);
    hide NoCommas, SplitDots, DigitsOf;
    assert AllDigits(SplitDots(t)[0]);
    if IsDigit(s[0]) { OneDigitMore(s[0], SplitDots(t)[0]); }
  }

  lemma {:induction false} NumberOfLast(ds: seq<nat>)
    requires ds != []
    ensures NumberOf(ds) == NumberOf(ds[..|ds| - 1]) * 10 + ds[|ds| - 1]
  {
    var n := |ds| - 1;
    if n > 0 {
      NumberOfLast(ds[1..]);
      assert ds[1..][..n - 1] == ds[..n][1..];
      assert ds[0] * Pow10(n) == ds[0] * Pow10(n - 1) * 10;
    }
  }

  lemma {:induction false} ValueIsNumber(p: string)
    requires AllDigits(p)
    ensures Value(p) == NumberOf(DigitsOf(p))
  {
    if p != "" {
      var n := |p| - 1;
      ValueIsNumber(p[..n]);
      NumberOfLast(DigitsOf(p));
      assert DigitsOf(p)[..n] == DigitsOf(p[..n]);
    }
  }

  // ---- the words of a number, of digits, of parts

  lemma OnesAreNumberWords(n: nat)
    requires n < 20
    ensures NumberWord(Ones(n))
  {
  }

  lemma {:induction false} WordsAreNumberWords(n: nat)
    requires n < LIMIT
    ensures forall k :: 0 <= k < |Words(n)| ==> NumberWord(Words(n)[k])
    decreases n
  {
    hide NumberWord, Ones, Tens, Scale;
    if n < 20 {
      OnesAreNumberWords(n);
    } else if n < 100 {
      TensAreNumberWords(n / 10);
      OnesAreNumberWords(n % 10);
    } else if n < 1000 {
      OnesAreNumberWords(n / 100);
      ScalesAreNumberWords();
      WordsAreNumberWords(n % 100);
    } else {
      var i := ScaleOf(n);
      Division(n, Scale(i).0);
      ScalesAreNumberWords();
      WordsAreNumberWords(n / Scale(i).0);
      WordsAreNumberWords(n % Scale(i).0);
    }
  }

  lemma TensAreNumberWords(n: nat)
    requires 2 <= n < 10
    ensures NumberWord(Tens(n))
  {
  }

  lemma ScalesAreNumberWords()
    ensures NumberWord("hundred") && forall i: nat :: i < 4 ==> NumberWord(Scale(i).1)
  {
  }

  /** What a part is said as. */
  lemma PartSaysNumber(p: string) returns (ws: seq<string>)
    requires AllDigits(p) && SpokenPart(p).Some?
    ensures ws != [] && AllWords(ws) && SpokenPart(p).value == Join(ws) && SaysNumber(ws, NumberOf(DigitsOf(p)))
  {
    hide NumberWord, IsWord, Meaning;
    ws := Words(Value(p));
    WordsAreHeard(Value(p), 0);
    WordsAreNumberWords(Value(p));
    ValueIsNumber(p);
  }

  lemma {:induction false} AloudSaysDigits(p: string) returns (ws: seq<string>)
    requires AllDigits(p) && p != ""
    ensures ws != [] && AllWords(ws) && Aloud(p) == Join(ws) && SaysDigits(ws, DigitsOf(p))
  {
    hide Ones, IsWord, Meaning, Join;
    var n := |p| - 1;
    var d := Digit(p[n]);
    MeaningOfOnes(d);
    OnesAreWords(d);
    JoinOne(Ones(d));
    if n == 0 {
      ws := [Ones(d)];
    } else {
      var front := AloudSaysDigits(p[..n]);
      ws := front + [Ones(d)];
      JoinAppend(front, [Ones(d)]);
      assert DigitsOf(p)[..n] == DigitsOf(p[..n]);
      forall k | 0 <= k < n ensures Meaning(ws[k]) == Some(DigitsOf(p)[k]) {
        assert DigitsOf(p)[k] == DigitsOf(p[..n])[k];
      }
    }
  }

  // ---- cutting at the points

  predicate NoPoint(ws: seq<string>) { "point" !in ws && "minus" !in ws }

  lemma {:induction false} CutNothing(ws: seq<string>)
    requires "point" !in ws
    ensures CutAtPoints(ws) == [ws]
  {
    if ws != [] {
      var n := |ws| - 1;
      CutNothing(ws[..n]);
      assert ws == ws[..n] + [ws[n]];
    }
  }

  lemma {:induction false} CutLast(a: seq<string>, b: seq<string>)
    requires "point" !in b
    ensures CutAtPoints(a + ["point"] + b) == CutAtPoints(a) + [b]
  {
    var all := a + ["point"] + b;
    if b == [] {
      assert all[..|all| - 1] == a;
    } else {
      var n := |b| - 1;
      CutLast(a, b[..n]);
      assert all[..|all| - 1] == a + ["point"] + b[..n];
      assert b == b[..n] + [b[n]];
    }
  }

  lemma JoinPoint(a: seq<string>, b: seq<string>)
    requires a != [] && b != []
    ensures Join(a + ["point"] + b) == Join(a) + " point " + Join(b)
  {
    hide Join;
    JoinOne("point");
    JoinAppend(a, ["point"]);
    JoinAppend(a + ["point"], b);
    assert Join(a) + " " + "point" + " " + Join(b) == Join(a) + " point " + Join(b);
  }

  lemma PointIsWord()
    ensures IsWord("point") && IsWord("minus") && !NumberWord("point") && !NumberWord("minus")
  {
  }

  lemma NumbersHaveNoPoint(ws: seq<string>, n: nat)
    requires SaysNumber(ws, n)
    ensures NoPoint(ws)
  {
    hide NumberWord;
    PointIsWord();
  }

  lemma DigitsHaveNoPoint(ws: seq<string>, ds: seq<nat>)
    requires SaysDigits(ws, ds)
    ensures NoPoint(ws)
  {
    PointIsWord();
    hide Meaning;
  }

  /** Every part of a version is said as its own number. */
  lemma {:induction false} VersionSaysParts(parts: seq<string>) returns (ws: seq<string>)
    requires parts != [] && DigitParts(parts) && SpokenVersion(parts).Some?
    ensures ws != [] && AllWords(ws) && SpokenVersion(parts).value == Join(ws) && "minus" !in ws
    ensures |CutAtPoints(ws)| == |parts|
    ensures forall k :: 0 <= k < |parts| ==> SaysNumber(CutAtPoints(ws)[k], NumberOf(DigitsOf(parts[k])))
  {
    hide SpokenPart, SaysNumber, IsWord, Join, CutAtPoints, NumberOf, NumberWord;
    var n := |parts| - 1;
    var last := PartSaysNumber(parts[n]);
    NumbersHaveNoPoint(last, NumberOf(DigitsOf(parts[n])));
    if n == 0 {
      ws := last;
      CutNothing(ws);
    } else {
      var front := VersionSaysParts(parts[..n]);
      ws := front + ["point"] + last;
      PointIsWord();
      JoinPoint(front, last);
      CutLast(front, last);
    }
  }

  // ---- a whole token

  predicate Negative(tok: string) { tok != "" && tok[0] == '-' }

  lemma SignDoesNotCount(tok: string)
    ensures DigitLists(tok) == DigitLists(Unsigned(tok))
  {
  }

  /** The words of a text behind the sign. */
  lemma SignedSays(negative: bool, ws: seq<string>, lists: seq<seq<nat>>)
    requires ws != [] && AllWords(ws) && SaysParts(CutAtPoints(ws), lists)
    ensures Says(Signed(negative, "minus ", Some(Join(ws))).value, negative, lists)
  {
    hide IsWord, SaysParts, CutAtPoints;
    SplitJoin(ws);
    if negative {
      PointIsWord();
      SplitWord("minus", Join(ws));
      assert "minus " + Join(ws) == "minus" + " " + Join(ws);
      assert Split(Signed(true, "minus ", Some(Join(ws))).value) == ["minus"] + ws;
    } else {
      assert Split(Join(ws)) == [] + ws;
    }
  }

  /** Can this be rewritten?  At most eight parts and 63 characters; to be said a number has at most
      nineteen digits and is below a thousand trillion; otherwise a single number has to be long, and
      a decimal to begin with one or two zeros. */
  predicate Rewritable(lists: seq<seq<nat>>, style: Style)
    requires lists != []
  {
    && |lists| <= 8 && TotalLen(lists) + |lists| - 1 <= 63 && [] !in lists
    && if |lists| > 2 then forall k :: 0 <= k < |lists| ==> Sayable(lists[k])
       else if style == InWords then Sayable(lists[0])
       else if |lists| == 2 then NumberOf(lists[0]) == 0 && |lists[0]| <= 2
       else |lists[0]| >= 7
  }

  predicate Sayable(ds: seq<nat>) { |ds| <= 19 && NumberOf(ds) < 1000000000000000 }

  /** The rewrite says the token's number; or, a single number that is only fixed, it has the token's
      sign and digits and is grouped in threes. */
  ghost predicate ReadsAs(tok: string, style: Style, out: string) {
    if style != InWords && |DigitLists(tok)| == 1 then
      Negative(out) == Negative(tok) && DigitLists(out) == DigitLists(tok) && Grouped(Unsigned(out))
    else Says(out, Negative(tok), DigitLists(tok))
  }

  lemma {:induction false} LengthsAddUp(s: string)
    requires BodyText(s)
    ensures |NoCommas(s)| == TotalLen(DigitLists(s)) + |DigitLists(s)| - 1
  {
    if s != "" {
      LengthsAddUp(s[1..]);
      var rest := DigitLists(s[1..]);
      assert rest == [rest[0]] + rest[1..];
      assert ([[]] + rest)[1..] == rest;
    }
  }

  lemma {:induction false} ZeroIsZeros(p: string)
    requires AllDigits(p)
    ensures AllZero(p) <==> NumberOf(DigitsOf(p)) == 0
  {
    if p != "" {
      var n := |p| - 1;
      ZeroIsZeros(p[..n]);
      NumberOfLast(DigitsOf(p));
      assert DigitsOf(p)[..n] == DigitsOf(p[..n]);
      assert p == p[..n] + [p[n]];
    }
  }

  lemma PartIsSayable(p: string)
    requires AllDigits(p) && p != ""
    ensures SpokenPart(p).Some? <==> Sayable(DigitsOf(p))
  {
    ValueIsNumber(p);
  }

  lemma {:induction false} VersionIsSayable(parts: seq<string>)
    requires parts != [] && DigitParts(parts) && "" !in parts
    ensures SpokenVersion(parts).Some? <==> forall k :: 0 <= k < |parts| ==> Sayable(DigitsOf(parts[k]))
  {
    hide Sayable, SpokenPart, AllDigits;
    var n := |parts| - 1;
    assert parts[n] in parts;
    PartIsSayable(parts[n]);
    if n > 0 {
      VersionIsSayable(parts[..n]);
      if forall k :: 0 <= k < n ==> Sayable(DigitsOf(parts[..n][k])) {
        assert forall k :: 0 <= k < n ==> parts[k] == parts[..n][k];
      }
    }
  }

  ghost predicate PartsOf(parts: seq<string>, lists: seq<seq<nat>>) {
    && |parts| == |lists| && DigitParts(parts) && "" !in parts && [] !in lists && parts != []
    && forall k :: 0 <= k < |lists| ==> lists[k] == DigitsOf(parts[k])
  }

  lemma VersionReadsBack(parts: seq<string>, lists: seq<seq<nat>>, negative: bool)
    requires PartsOf(parts, lists) && |parts| > 2
    ensures var r := Signed(negative, "minus ", SpokenVersion(parts));
      && (r.Some? <==> forall k :: 0 <= k < |lists| ==> Sayable(lists[k]))
      && (r.Some? ==> Says(r.value, negative, lists))
  {
    hide Sayable, Says, SpokenVersion, SaysNumber;
    VersionIsSayable(parts);
    if SpokenVersion(parts).Some? {
      var ws := VersionSaysParts(parts);
      SignedSays(negative, ws, lists);
    }
  }

  /** A whole number and a fraction digit by digit. */
  lemma DecimalSays(whole: seq<string>, n: nat, frac: seq<string>, ds: seq<nat>, lists: seq<seq<nat>>, negative: bool)
    requires whole != [] && frac != [] && AllWords(whole) && AllWords(frac) && SaysNumber(whole, n) && SaysDigits(frac, ds)
    requires |lists| == 2 && NumberOf(lists[0]) == n && lists[1] == ds
    ensures Says(Signed(negative, "minus ", Some(Join(whole) + " point " + Join(frac))).value, negative, lists)
  {
    hide Says, SaysNumber, SaysDigits, IsWord, NumberOf, Join, CutAtPoints;
    NumbersHaveNoPoint(whole, n);
    DigitsHaveNoPoint(frac, ds);
    CutNothing(whole);
    CutLast(whole, frac);
    JoinPoint(whole, frac);
    PointIsWord();
    SignedSays(negative, whole + ["point"] + frac, lists);
  }

  lemma InWordsReadsBack(parts: seq<string>, lists: seq<seq<nat>>, negative: bool)
    requires PartsOf(parts, lists) && |parts| <= 2
    ensures var r := Quantity(parts, negative, InWords);
      (r.Some? <==> Sayable(lists[0])) && (r.Some? ==> Says(r.value, negative, lists))
  {
    hide Sayable, Says, SpokenPart, SaysNumber, SaysDigits, NumberOf, AllDigits;
    assert parts[0] in parts;
    PartIsSayable(parts[0]);
    if SpokenPart(parts[0]).Some? {
      var ws := PartSaysNumber(parts[0]);
      if |parts| == 1 {
        NumbersHaveNoPoint(ws, NumberOf(lists[0]));
        CutNothing(ws);
        SignedSays(negative, ws, lists);
      } else {
        assert parts[1] in parts;
        var frac := AloudSaysDigits(parts[1]);
        DecimalSays(ws, NumberOf(lists[0]), frac, lists[1], lists, negative);
      }
    }
  }

  lemma ZeroSays()
    ensures SaysNumber(["zero"], 0) && AllWords(["zero"]) && Join(["zero"]) == "zero"
  {
    assert Meaning("zero") == Some(0);
    HearOne(Heard(0, 0), "zero");
  }

  lemma FixedReadsBack(parts: seq<string>, lists: seq<seq<nat>>, negative: bool)
    requires PartsOf(parts, lists) && |parts| == 2
    ensures var r := Quantity(parts, negative, Fix);
      && (r.Some? <==> NumberOf(lists[0]) == 0 && |lists[0]| <= 2)
      && (r.Some? ==> Says(r.value, negative, lists))
  {
    hide Says, SaysNumber, SaysDigits, NumberOf, AllDigits, Join;
    assert parts[0] in parts && parts[1] in parts;
    ZeroIsZeros(parts[0]);
    if NumberOf(lists[0]) == 0 {
      ZeroSays();
      var frac := AloudSaysDigits(parts[1]);
      DecimalSays(["zero"], 0, frac, lists[1], lists, negative);
      assert "zero" + " point " + Aloud(parts[1]) == "zero point " + Aloud(parts[1]);
    }
  }

  lemma GroupedReadsBack(d: string, negative: bool)
    requires AllDigits(d) && d != ""
    ensures var out := (if negative then "-" else "") + Group(d);
      Negative(out) == negative && DigitLists(out) == [DigitsOf(d)] && Grouped(Unsigned(out))
  {
    hide Group, NoCommas, SplitDots, Grouped;
    var out := (if negative then "-" else "") + Group(d);
    GroupBody(d);
    GroupKeepsDigits(d);
    GroupIsGrouped(d);
    OnePart(d);
    assert Unsigned(out) == Group(d);
    PartsAreDigits(Group(d));
    SignDoesNotCount(out);
  }

  lemma LongReadsBack(tok: string, parts: seq<string>)
    requires PartsOf(parts, DigitLists(tok)) && |parts| == 1
    ensures var r := Quantity(parts, Negative(tok), Fix);
      && (r.Some? <==> |DigitLists(tok)[0]| >= 7)
      && (r.Some? ==> ReadsAs(tok, Fix, r.value))
  {
    hide Group, Grouped, DigitLists, AllDigits;
    assert parts[0] in parts;
    GroupedReadsBack(parts[0], Negative(tok));
    assert "" + Group(parts[0]) == Group(parts[0]);
    assert DigitLists(tok) == [DigitsOf(parts[0])];
  }

  lemma PartsOfToken(tok: string)
    requires BodyText(Unsigned(tok))
    ensures var parts, lists := SplitDots(NoCommas(Unsigned(tok))), DigitLists(tok);
      && |parts| == |lists| && (Parts(Unsigned(tok)).Some? ==> PartsOf(parts, lists))
      && (Parts(Unsigned(tok)).Some? <==> |lists| <= 8 && TotalLen(lists) + |lists| - 1 <= 63 && [] !in lists)
  {
    var body := Unsigned(tok);
    SignDoesNotCount(tok);
    PartsAreDigits(body);
    LengthsAddUp(body);
    hide NoCommas, SplitDots, DigitLists, TotalLen;
    var parts, lists := SplitDots(NoCommas(body)), DigitLists(tok);
    forall k | 0 <= k < |lists| ensures parts[k] == "" <==> lists[k] == [] {}
    if "" in parts {
      var k :| 0 <= k < |parts| && parts[k] == "";
      assert lists[k] == [];
    }
    if [] in lists {
      var k :| 0 <= k < |lists| && lists[k] == [];
      assert parts[k] == "";
    }
  }

  /** A token is rewritten exactly when it can be, and what it becomes reads back as the token. */
  lemma RewriteReadsBack(tok: string, style: Style)
    requires BodyText(Unsigned(tok)) && style != Off
    ensures Rewrite(tok, style).Some? <==> Rewritable(DigitLists(tok), style)
    ensures Rewrite(tok, style).Some? ==> ReadsAs(tok, style, Rewrite(tok, style).value)
  {
    hide NoCommas, SplitDots, DigitLists, TotalLen, SpokenVersion, Quantity, Signed, Sayable, Says, NumberOf, Grouped, AllDigits;
    BodyParts(Unsigned(tok));
    PartsOfToken(tok);
    var negative, lists := Negative(tok), DigitLists(tok);
    if Parts(Unsigned(tok)).Some? {
      var parts := Parts(Unsigned(tok)).value;
      if |parts| > 2 {
        VersionReadsBack(parts, lists, negative);
      } else if style == InWords {
        InWordsReadsBack(parts, lists, negative);
      } else if |parts| == 2 {
        FixedReadsBack(parts, lists, negative);
      } else {
        LongReadsBack(tok, parts);
      }
    }
  }

  // ---- a whole text

  /** An embedded command: two brackets, at most 64 characters up to the first two that close, and those. */
  predicate CommandAt(text: string, i: nat, j: nat) {
    && i + 4 <= j <= |text| && j - i - 4 <= 64
    && text[i..i + 2] == "[[" && text[j - 2..j] == "]]"
    && forall k :: i + 2 <= k < j - 2 ==> !(text[k] == ']' && text[k + 1] == ']')
  }

  lemma CommandIsRead(text: string, i: nat, n: nat)
    requires i <= |text|
    ensures CommandLen(text[i..]) == Some(n) <==> CommandAt(text, i, i + n)
  {
    var s := text[i..];
    if CommandLen(s) == Some(n) {
      forall k | i + 2 <= k < i + n - 2 ensures !(text[k] == ']' && text[k + 1] == ']') {
        assert !ClosesAt(s, k - i);
      }
    }
    if CommandAt(text, i, i + n) {
      assert text[i + n - 2..i + n] == "]]";
      assert ClosesAt(s, n - 2) by { assert s[n - 2] == text[i + n - 2..i + n][0] && s[n - 1] == text[i + n - 2..i + n][1]; }
      assert OpensCommand(s) by { assert s[0] == text[i..i + 2][0] && s[1] == text[i..i + 2][1]; }
      forall k | 2 <= k < n - 2 ensures !ClosesAt(s, k) {
        assert text[i + k] == s[k] && text[i + k + 1] == s[k + 1];
      }
    }
  }

  ghost predicate HasCommand(text: string, i: nat) { exists k: nat :: CommandAt(text, i, k) }

  ghost predicate HasMatch(text: string, i: nat) { exists k: nat :: MatchesAt(text, i, k) }

  ghost predicate LongestMatch(text: string, i: nat, j: nat) {
    MatchesAt(text, i, j) && forall k: nat :: MatchesAt(text, i, k) ==> k <= j
  }

  /** A token is rewritten when it can be, and is left alone when not. */
  ghost predicate Rendered(tok: string, style: Style, out: string) {
    if Rewritable(DigitLists(tok), style) then ReadsAs(tok, style, out) else out == tok
  }

  /** What stands at `i` and what becomes of it: a command is copied whole; where the pattern matches,
      its longest match is a token, rewritten when it can be; and any other character is copied. */
  ghost predicate PieceRight(text: string, i: nat, piece: (string, string), style: Style) {
    var j := i + |piece.0|;
    && i < j <= |text| && text[i..j] == piece.0
    && if HasCommand(text, i) then CommandAt(text, i, j) && piece.1 == piece.0
       else if HasMatch(text, i) then LongestMatch(text, i, j) && Rendered(piece.0, style, piece.1)
       else j == i + 1 && piece.1 == piece.0
  }

  ghost predicate PiecesRight(text: string, i: nat, ps: seq<(string, string)>, style: Style)
    decreases |ps|
  {
    if ps == [] then i == |text|
    else PieceRight(text, i, ps[0], style) && PiecesRight(text, i + |ps[0].0|, ps[1..], style)
  }

  lemma RenderedToken(tok: string, style: Style)
    requires Token(tok) && style != Off
    ensures Rendered(tok, style, Rewritten(tok, style))
  {
    hide Rewrite, Token, ReadsAs, Rewritable;
    TokenIsBody(tok);
    RewriteReadsBack(tok, style);
  }

  lemma CommandKnown(text: string, i: nat)
    requires i <= |text|
    ensures HasCommand(text, i) <==> CommandLen(text[i..]).Some?
    ensures CommandLen(text[i..]).Some? ==> CommandAt(text, i, i + CommandLen(text[i..]).value)
  {
    hide CommandLen;
    if CommandLen(text[i..]).Some? {
      CommandIsRead(text, i, CommandLen(text[i..]).value);
    }
    if k: nat :| CommandAt(text, i, k) { CommandIsRead(text, i, k - i); }
  }

  lemma MatchKnown(text: string, i: nat)
    requires i < |text| && CommandLen(text[i..]).None?
    ensures var p := Next(i > 0 && Blocks(text[i - 1]), text[i..]);
      && (HasMatch(text, i) <==> p.Number?)
      && (if p.Number? then LongestMatch(text, i, i + p.len) else p.len == 1)
  {
    hide Next, MatchesAt, CommandLen;
    PieceIsLongestMatch(text, i);
    forall k: nat | MatchesAt(text, i, k) ensures i <= k { MatchEnds(text, i, k); }
  }

  lemma NextPiece(blocked: bool, s: string, style: Style)
    requires s != ""
    ensures var p := Next(blocked, s);
      && (CommandLen(s).Some? ==> p == Verbatim(CommandLen(s).value))
      && (p.Verbatim? ==> PieceOut(s, p, style) == s[..p.len])
      && (p.Number? ==> PieceOut(s, p, style) == Rewritten(s[..p.len], style))
  {
    hide CommandLen, TokenAt, Rewritten;
  }

  lemma NextIsRight(text: string, i: nat, style: Style)
    requires i < |text| && style != Off
    ensures var p := Next(i > 0 && Blocks(text[i - 1]), text[i..]);
      PieceRight(text, i, (text[i..][..p.len], PieceOut(text[i..], p, style)), style)
  {
    hide Next, PieceOut, Blocks, CommandLen, CommandAt, HasCommand, HasMatch, LongestMatch, Rendered, Rewritten;
    var s := text[i..];
    var p := Next(i > 0 && Blocks(text[i - 1]), s);
    assert s[..p.len] == text[i..i + p.len];
    NextPiece(i > 0 && Blocks(text[i - 1]), s, style);
    CommandKnown(text, i);
    if CommandLen(s).None? {
      MatchKnown(text, i);
      if p.Number? { RenderedToken(s[..p.len], style); }
    }
  }

  lemma MatchEnds(text: string, i: nat, k: nat)
    requires MatchesAt(text, i, k)
    ensures i <= k
  {
  }

  lemma {:induction false} PiecesAreRight(text: string, i: nat, style: Style)
    requires i <= |text| && style != Off
    ensures PiecesRight(text, i, Pieces(i > 0 && Blocks(text[i - 1]), text[i..], style), style)
    decreases |text| - i
  {
    hide Next, PieceOut, Blocks, PieceRight, Pieces, ExpandFrom;
    if i == |text| {
      assert text[i..] == "";
      NoPieces(i > 0 && Blocks(text[i - 1]), style);
    } else {
      var s := text[i..];
      var blocked := i > 0 && Blocks(text[i - 1]);
      var p := Next(blocked, s);
      FirstPiece(blocked, s, style);
      NextIsRight(text, i, style);
      PiecesAreRight(text, i + p.len, style);
      assert s[p.len..] == text[i + p.len..] && s[p.len - 1] == text[i + p.len - 1];
    }
  }

  /** The whole text, piece by piece from left to right. */
  lemma ExpandedPieceByPiece(text: string, style: Style) returns (ps: seq<(string, string)>)
    requires style != Off
    ensures PiecesRight(text, 0, ps, style) && Sources(ps) == text && Outputs(ps) == Expand(text, style)
  {
    hide PiecesRight;
    ps := Pieces(false, text, style);
    OnlyTokensChange(false, text, style);
    assert text[0..] == text;
    PiecesAreRight(text, 0, style);
  }
}
