/** What one number token is rewritten to, if anything. */
module NumberRewrite {
  import opened Characters
  import opened Wrappers
  import opened NumberWords
  import opened NumberToken

  datatype Style = Off | Fix | InWords

  const LONG_DIGITS: nat := 7
  const CLEAN_MAX: nat := 63
  const PARTS_MAX: nat := 8

  function NoCommas(s: string): string {
    if s == "" then "" else (if s[0] == ',' then "" else [s[0]]) + NoCommas(s[1..])
  }

  /** The stretches between dots. */
  function SplitDots(s: string): (r: seq<string>)
    ensures r != []
  {
    if s == "" then [""]
    else
      var rest := SplitDots(s[1..]);
      if s[0] == '.' then [""] + rest else [[s[0]] + rest[0]] + rest[1..]
  }

  /** A token's parts, unless it is too long, has too many, or one is empty. */
  function Parts(body: string): Option<seq<string>> {
    var clean := NoCommas(body);
    var parts := SplitDots(clean);
    if |clean| > CLEAN_MAX || |parts| > PARTS_MAX || "" in parts then None else Some(parts)
  }

  predicate AllDigits(s: string) { forall k :: 0 <= k < |s| ==> IsDigit(s[k]) }

  function Digit(c: char): nat
    requires IsDigit(c)
  {
    c as int - '0' as int
  }

  function Value(s: string): nat
    requires AllDigits(s)
  {
    if s == "" then 0 else Value(s[..|s| - 1]) * 10 + Digit(s[|s| - 1])
  }

  /** A part in words: at most nineteen digits, and a number that can be said. */
  function SpokenPart(p: string): Option<string>
    requires AllDigits(p)
  {
    if p == "" || |p| > 19 then None else Spoken(Value(p))
  }

  function Aloud(p: string): string
    requires AllDigits(p)
  {
    if p == "" then ""
    else if |p| == 1 then Ones(Digit(p[0]))
    else Aloud(p[..|p| - 1]) + " " + Ones(Digit(p[|p| - 1]))
  }

  /** Digits in threes from the right. */
  function Group(s: string): string {
    if |s| <= 3 then s else Group(s[..|s| - 3]) + "," + s[|s| - 3..]
  }

  predicate DigitParts(parts: seq<string>) {
    forall k :: 0 <= k < |parts| ==> AllDigits(parts[k])
  }

  /** Every part in words, with the points said; nothing if one cannot be. */
  function SpokenVersion(parts: seq<string>): Option<string>
    requires parts != [] && DigitParts(parts)
  {
    var n := |parts| - 1;
    var last := SpokenPart(parts[n]);
    if n == 0 then last
    else
      var front := SpokenVersion(parts[..n]);
      if front.Some? && last.Some? then Some(front.value + " point " + last.value) else None
  }

  function Signed(negative: bool, minus: string, o: Option<string>): Option<string> {
    if o.None? then None else if negative then Some(minus + o.value) else o
  }

  predicate AllZero(s: string) { forall k :: 0 <= k < |s| ==> s[k] == '0' }

  /** A quantity: one part, or a whole and a fraction. */
  function Quantity(parts: seq<string>, negative: bool, style: Style): Option<string>
    requires 1 <= |parts| <= 2 && DigitParts(parts)
  {
    if style == InWords then
      var whole := SpokenPart(parts[0]);
      if whole.None? then None
      else Signed(negative, "minus ", Some(if |parts| == 2 then whole.value + " point " + Aloud(parts[1]) else whole.value))
    else if |parts| == 2 then
      if AllZero(parts[0]) && 0 < |parts[0]| <= 2 then Signed(negative, "minus ", Some("zero point " + Aloud(parts[1])))
      else None
    else if |parts[0]| >= LONG_DIGITS then Signed(negative, "-", Some(Group(parts[0])))
    else None
  }

  /** Characters a token's body is made of. */
  predicate IsBody(c: char) { IsRun(c) || c == '.' }

  predicate BodyText(s: string) { forall k :: 0 <= k < |s| ==> IsBody(s[k]) }

  function Rewrite(tok: string, style: Style): Option<string>
    requires BodyText(Unsigned(tok))
  {
    var parts := Parts(Unsigned(tok));
    var negative := tok != "" && tok[0] == '-';
    if parts.None? then None
    else
      BodyParts(Unsigned(tok));
      if |parts.value| > 2 then Signed(negative, "minus ", SpokenVersion(parts.value))
      else Quantity(parts.value, negative, style)
  }

  lemma {:induction false} NoCommasBody(s: string)
    requires BodyText(s)
    ensures BodyText(NoCommas(s)) && ',' !in NoCommas(s)
  {
    if s != "" {
      NoCommasBody(s[1..]);
    }
  }

  lemma {:induction false} SplitDotsDigits(s: string)
    requires BodyText(s) && ',' !in s
    ensures DigitParts(SplitDots(s))
  {
    if s != "" {
      SplitDotsDigits(s[1..]);
      var rest := SplitDots(s[1..]);
      if s[0] != '.' {
        assert IsBody(s[0]) && s[0] != ',';
        assert AllDigits([s[0]] + rest[0]);
      }
    }
  }

  lemma BodyParts(s: string)
    requires BodyText(s)
    ensures DigitParts(SplitDots(NoCommas(s)))
  {
    NoCommasBody(s);
    SplitDotsDigits(NoCommas(s));
  }

  // ---- grouping

  /** One to three digits, then commas and threes. */
  predicate Grouped(s: string)
    decreases |s|
  {
    if |s| <= 3 then s != "" && AllDigits(s)
    else AllDigits(s[|s| - 3..]) && s[|s| - 4] == ',' && Grouped(s[..|s| - 4])
  }

  lemma GroupedAppend(g: string, back: string)
    requires Grouped(g) && |back| == 3 && AllDigits(back)
    ensures Grouped(g + "," + back)
  {
    hide AllDigits;
    var t := g + "," + back;
    assert |t| == |g| + 4;
    assert t[|t| - 3..] == back && t[|t| - 4] == ',' && t[..|t| - 4] == g;
  }

  lemma {:induction false} GroupIsGrouped(s: string)
    requires s != "" && AllDigits(s)
    ensures Grouped(Group(s))
  {
    hide Grouped;
    if |s| > 3 {
      GroupIsGrouped(s[..|s| - 3]);
      GroupedAppend(Group(s[..|s| - 3]), s[|s| - 3..]);
    } else {
      ShortIsGrouped(s);
    }
  }

  lemma ShortIsGrouped(s: string)
    requires s != "" && |s| <= 3 && AllDigits(s)
    ensures Grouped(s)
  {
  }

  lemma Regroup(a: string, b: string, c: string)
    ensures (a + b) + c == a + (b + c)
  {
  }

  lemma {:induction false} NoCommasAppend(a: string, b: string)
    ensures NoCommas(a + b) == NoCommas(a) + NoCommas(b)
  {
    var t := a + b;
    if a == "" {
      assert t == b;
    } else {
      NoCommasAppend(a[1..], b);
      assert t[0] == a[0] && t[1..] == a[1..] + b;
      var kept := if a[0] == ',' then "" else [a[0]];
      Regroup(kept, NoCommas(a[1..]), NoCommas(b));
    }
  }

  lemma {:induction false} NoCommasDigits(s: string)
    requires AllDigits(s)
    ensures NoCommas(s) == s
  {
    if s != "" {
      NoCommasDigits(s[1..]);
    }
  }

  /** Deleting the commas gives the digits back. */
  lemma {:induction false} GroupKeepsDigits(s: string)
    requires AllDigits(s)
    ensures NoCommas(Group(s)) == s
  {
    hide NoCommas;
    if |s| <= 3 {
      NoCommasDigits(s);
    } else {
      var front, back := s[..|s| - 3], s[|s| - 3..];
      GroupKeepsDigits(front);
      hide Group;
      NoCommasAppend(Group(front) + ",", back);
      NoCommasAppend(Group(front), ",");
      NoCommasDigits(back);
      CommaIsDeleted();
      GroupLong(s);
      assert front + "" + back == s;
    }
  }

  lemma CommaIsDeleted()
    ensures NoCommas(",") == ""
  {
  }

  lemma GroupLong(s: string)
    requires |s| > 3
    ensures Group(s) == Group(s[..|s| - 3]) + "," + s[|s| - 3..]
  {
  }

  method AddGrouped(b: Buffer, s: string)
    requires s != ""
    modifies b
    ensures b.text == old(b.text) + Group(s)
  {
    hide Group;
    var head := if |s| % 3 == 0 then 3 else |s| % 3;
    ShortGroup(s[..head]);
    b.Add(s[..head]);
    var i := head;
    while i < |s|
      invariant head <= i <= |s| && i % 3 == |s| % 3
      invariant b.text == old(b.text) + Group(s[..i])
    {
      GroupStep(s, i);
      Regroup(old(b.text), Group(s[..i]), ",");
      Regroup(old(b.text), Group(s[..i]) + ",", s[i..i + 3]);
      b.Add(",");
      b.Add(s[i..i + 3]);
      i := i + 3;
    }
    assert s[..i] == s;
  }

  lemma ShortGroup(s: string)
    requires |s| <= 3
    ensures Group(s) == s
  {
  }

  lemma GroupStep(s: string, i: nat)
    requires 0 < i && i + 3 <= |s|
    ensures Group(s[..i + 3]) == Group(s[..i]) + "," + s[i..i + 3]
  {
    assert s[..i + 3][..i] == s[..i] && s[..i + 3][i..] == s[i..i + 3];
  }
}
