/** Which lines say something, said of the line itself: spaces around a bare key, an equals sign, and
    a quoted text, a truth value or a signed number with a comment after it. */
module SettingsLines {
  import opened Characters
  import opened Wrappers
  import opened SettingsFormat
  import opened SettingsLaws

  predicate Blank(loc: Locale, s: string) { forall k :: 0 <= k < |s| ==> IsSpace(loc, s[k]) }

  // ---- what a value looks like

  /** One character of a quoted text: any but a quote or a backslash, or any at all after a backslash. */
  predicate Quotable(item: string) {
    || (|item| == 1 && item[0] != '"' && item[0] != '\\')
    || (|item| == 2 && item[0] == '\\')
  }

  function Concat(items: seq<string>): string { if items == [] then "" else items[0] + Concat(items[1..]) }

  /** The characters themselves. */
  function Meant(items: seq<string>): string
    requires forall k :: 0 <= k < |items| ==> items[k] != ""
  {
    seq(|items|, k requires 0 <= k < |items| => items[k][|items[k]| - 1])
  }

  ghost predicate QuotedSays(w: string, v: Value) {
    exists items, rest :: QuotedAs(w, items, rest, v)
  }

  /** The text between the quotes, at most 63 characters of it; what follows the closing one is ignored. */
  ghost predicate QuotedAs(w: string, items: seq<string>, rest: string, v: Value) {
    && (forall k :: 0 <= k < |items| ==> Quotable(items[k]))
    && w == "\"" + (Concat(items) + ("\"" + rest))
    && v == Text(if |items| <= 63 then Meant(items) else Meant(items)[..63])
  }

  predicate Numeric(d: string) { forall k :: 0 <= k < |d| ==> '0' <= d[k] <= '9' }

  function Pow10(n: nat): nat { if n == 0 then 1 else 10 * Pow10(n - 1) }

  /** A numeral's number, by the places its digits stand in. */
  function NumeralValue(d: string): nat
    requires Numeric(d)
  {
    if d == "" then 0
    else
      var x: nat := d[0] as int - 48;
      x * Pow10(|d| - 1) + NumeralValue(d[1..])
  }

  predicate SignedAs(word: string, sign: string, d: string, v: Value) {
    && word == sign + d && (sign == "" || sign == "+" || sign == "-") && Numeric(d) && d != ""
    && NumeralValue(d) <= 0x7fffffff
    && v == Number(if sign == "-" then 0 - NumeralValue(d) else NumeralValue(d))
  }

  ghost predicate WordSays(word: string, v: Value) {
    || (word == "true" && v == Number(1))
    || (word == "false" && v == Number(0))
    || exists sign, d :: SignedAs(word, sign, d, v)
  }

  /** Nothing but spaces, or spaces and a comment. */
  predicate Trailing(loc: Locale, s: string) {
    exists n :: 0 <= n <= |s| && Blank(loc, s[..n]) && (n == |s| || s[n] == '#')
  }

  ghost predicate BareAs(loc: Locale, w: string, word: string, tail: string, v: Value) {
    w == word + tail && WordSays(word, v) && Trailing(loc, tail)
  }

  ghost predicate ValueSays(loc: Locale, w: string, v: Value) {
    QuotedSays(w, v) || exists word, tail :: BareAs(loc, w, word, tail, v)
  }

  ghost predicate LineAs(loc: Locale, raw: string, a: string, k: string, b: string, c: string, w: string, v: Value) {
    && raw == a + (k + (b + ("=" + (c + w))))
    && Blank(loc, a) && Blank(loc, b) && Blank(loc, c) && BareKey(loc, k) && ValueSays(loc, w, v)
  }

  ghost predicate LineSays(loc: Locale, raw: string, k: string, v: Value) {
    exists a, b, c, w :: LineAs(loc, raw, a, k, b, c, w, v)
  }

  // ---- numbers

  /** The number that digits after `n` come to. */
  function Total(d: string, n: nat): nat
    requires Numeric(d)
  {
    n * Pow10(|d|) + NumeralValue(d)
  }

  lemma TotalStep(d: string, n: nat)
    requires Numeric(d) && d != ""
    ensures Total(d, n) == Total(d[1..], n * 10 + (d[0] as int - 48))
  {
    var x, p := d[0] as int - 48, Pow10(|d| - 1);
    assert (n * 10 + x) * p == n * (10 * p) + x * p;
  }

  lemma TotalGrows(d: string, n: nat)
    requires Numeric(d)
    ensures Total(d, n) >= n
  {
    PowPositive(|d|);
    var p := Pow10(|d|);
    assert n * p >= n;
  }

  lemma {:induction false} DigitsAre(d: string, n: nat)
    requires n <= NUMBER_MAX
    ensures Digits(d, n) == if Numeric(d) && Total(d, n) <= NUMBER_MAX then Some(Total(d, n)) else None
  {
    hide Total;
    if d == "" {
      NoMore(n);
    } else if IsDigit(d[0]) {
      var x := d[0] as int - 48;
      assert d == [d[0]] + d[1..];
      if Numeric(d) {
        TotalStep(d, n);
        TotalGrows(d[1..], n * 10 + x);
      }
      if n * 10 + x <= NUMBER_MAX {
        DigitsAre(d[1..], n * 10 + x);
      }
    }
  }

  lemma NoMore(n: nat)
    ensures Total("", n) == n
  {
  }

  lemma {:induction false} PowPositive(n: nat)
    ensures Pow10(n) >= 1
  {
    if n > 0 { PowPositive(n - 1); }
  }

  lemma IntegerIff(word: string, n: int)
    ensures Integer(word) == Some(n) <==> exists sign, d :: SignedAs(word, sign, d, Number(n))
  {
    hide Digits, NumeralValue, Pow10;
    if Integer(word) == Some(n) {
      var signed := word[0] == '+' || word[0] == '-';
      var sign, d := if signed then word[..1] else "", if signed then word[1..] else word;
      DigitsAre(d, 0);
      assert word == sign + d;
      assert SignedAs(word, sign, d, Number(n));
    }
    if sign, d :| SignedAs(word, sign, d, Number(n)) {
      DigitsAre(d, 0);
      if sign == "" {
        assert word == d;
      } else {
        assert word[1..] == d && word[0] == sign[0];
      }
    }
  }

  // ---- quoted texts

  predicate AllQuotable(items: seq<string>) { forall k :: 0 <= k < |items| ==> Quotable(items[k]) }

  lemma {:induction false} QuotedIsRead(items: seq<string>, rest: string)
    requires AllQuotable(items)
    ensures Unquote(Concat(items) + ("\"" + rest)) == Some(Meant(items))
  {
    var s := Concat(items) + ("\"" + rest);
    if items == [] {
      assert s == "\"" + rest;
    } else {
      var t := Concat(items[1..]) + ("\"" + rest);
      assert s == items[0] + t;
      QuotedIsRead(items[1..], rest);
      assert Quotable(items[0]);
      assert s[|items[0]|..] == t;
      assert Meant(items) == [items[0][|items[0]| - 1]] + Meant(items[1..]);
    }
  }

  lemma NoItems()
    ensures Concat([]) == ""
  {
  }

  lemma OneItemMore(item: string, items: seq<string>, rest: string)
    ensures Concat([item] + items) + ("\"" + rest) == item + (Concat(items) + ("\"" + rest))
  {
    assert ([item] + items)[1..] == items;
  }

  lemma {:induction false} ReadIsQuoted(s: string) returns (items: seq<string>, rest: string)
    requires Unquote(s).Some?
    ensures AllQuotable(items) && s == Concat(items) + ("\"" + rest) && Unquote(s).value == Meant(items)
    decreases |s|
  {
    hide Concat;
    NoItems();
    if s[0] == '\\' && |s| > 1 {
      items, rest := ReadIsQuoted(s[2..]);
      OneItemMore(s[..2], items, rest);
      assert s == s[..2] + s[2..];
      items := [s[..2]] + items;
    } else if s[0] == '"' {
      items, rest := [], s[1..];
    } else {
      items, rest := ReadIsQuoted(s[1..]);
      OneItemMore(s[..1], items, rest);
      assert s == s[..1] + s[1..];
      items := [s[..1]] + items;
    }
  }

  lemma QuotedIff(loc: Locale, w: string, v: Value)
    requires w != "" && w[0] == '"'
    ensures ReadValue(loc, w) == Some(v) <==> QuotedSays(w, v)
  {
    hide Unquote, Concat;
    if ReadValue(loc, w) == Some(v) {
      var items, rest := ReadIsQuoted(w[1..]);
      assert w == "\"" + w[1..];
      assert QuotedAs(w, items, rest, v);
    }
    if items, rest :| QuotedAs(w, items, rest, v) {
      assert w[1..] == Concat(items) + ("\"" + rest);
      QuotedIsRead(items, rest);
    }
  }

  // ---- trimming

  lemma {:induction false} TrimLeftBlank(loc: Locale, a: string, s: string)
    requires Blank(loc, a)
    ensures TrimLeft(loc, a + s) == TrimLeft(loc, s)
  {
    if a == "" {
      assert a + s == s;
    } else {
      TrimLeftBlank(loc, a[1..], s);
      assert (a + s)[1..] == a[1..] + s;
    }
  }

  lemma {:induction false} TrimRightBlank(loc: Locale, s: string, a: string)
    requires Blank(loc, a)
    ensures TrimRight(loc, s + a) == TrimRight(loc, s)
  {
    if a == "" {
      assert s + a == s;
    } else {
      var n := |a| - 1;
      TrimRightBlank(loc, s, a[..n]);
      assert (s + a)[..|s| + n] == s + a[..n];
    }
  }

  /** A text with something in it is trimmed to what lies between its outer spaces. */
  lemma {:induction false} TrimRightParts(loc: Locale, s: string) returns (tail: string)
    ensures s == TrimRight(loc, s) + tail && Blank(loc, tail)
    ensures TrimRight(loc, s) != "" ==> !IsSpace(loc, TrimRight(loc, s)[|TrimRight(loc, s)| - 1])
  {
    if s != "" && IsSpace(loc, s[|s| - 1]) {
      tail := TrimRightParts(loc, s[..|s| - 1]);
      tail := tail + [s[|s| - 1]];
    } else {
      tail := "";
    }
  }

  lemma {:induction false} TrimLeftParts(loc: Locale, s: string) returns (head: string)
    ensures s == head + TrimLeft(loc, s) && Blank(loc, head)
    ensures TrimLeft(loc, s) != "" ==> !IsSpace(loc, TrimLeft(loc, s)[0])
  {
    if s != "" && IsSpace(loc, s[0]) {
      head := TrimLeftParts(loc, s[1..]);
      head := [s[0]] + head;
    } else {
      head := "";
    }
  }

  lemma TrimParts(loc: Locale, s: string) returns (head: string, tail: string)
    ensures s == head + (Trim(loc, s) + tail) && Blank(loc, head) && Blank(loc, tail)
    ensures var t := Trim(loc, s); t != "" ==> !IsSpace(loc, t[0]) && !IsSpace(loc, t[|t| - 1])
  {
    hide TrimLeft, TrimRight, IsSpace;
    head := TrimLeftParts(loc, s);
    tail := TrimRightParts(loc, TrimLeft(loc, s));
    var t := TrimRight(loc, TrimLeft(loc, s));
    assert t != "" ==> t[0] == TrimLeft(loc, s)[0];
  }

  lemma TrimBetween(loc: Locale, a: string, s: string, b: string)
    requires Blank(loc, a) && Blank(loc, b) && s != "" && !IsSpace(loc, s[0]) && !IsSpace(loc, s[|s| - 1])
    ensures Trim(loc, a + (s + b)) == s
  {
    TrimLeftBlank(loc, a, s + b);
    assert TrimLeft(loc, s + b) == s + b;
    TrimRightBlank(loc, s, b);
  }

  // ---- bare values

  /** A word has no space at its ends, and nothing that would make it a quoted text or a comment. */
  lemma WordFacts(loc: Locale, word: string, v: Value)
    requires Sane(loc) && WordSays(word, v)
    ensures word != "" && !IsSpace(loc, word[0]) && !IsSpace(loc, word[|word| - 1])
    ensures forall k :: 0 <= k < |word| ==> word[k] != '#' && word[k] != '"'
  {
    if word != "true" && word != "false" {
      var sign, d :| SignedAs(word, sign, d, v);
      assert word[|word| - 1] == d[|d| - 1];
      forall k | 0 <= k < |word| ensures word[k] != '#' && word[k] != '"' {
        assert k < |sign| || word[k] == d[k - |sign|];
      }
    }
  }

  /** What the reader makes of a bare word. */
  lemma WordIff(word: string, v: Value)
    ensures WordSays(word, v) <==>
      if word == "true" then v == Number(1) else if word == "false" then v == Number(0)
      else v.Number? && Integer(word) == Some(v.n)
  {
    hide Integer, NumeralValue;
    if v.Number? { IntegerIff(word, v.n); }
    if sign, d :| SignedAs(word, sign, d, v) {
      assert word[0] == if sign == "" then d[0] else sign[0];
    }
  }

  /** The word and what trails it, when a comment may follow. */
  lemma BareIsRead(loc: Locale, word: string, tail: string, v: Value)
    requires Sane(loc) && WordSays(word, v) && Trailing(loc, tail)
    requires '#' in tail || tail == ""
    ensures ReadValue(loc, word + tail) == Some(v)
  {
    hide Integer, WordSays, Trim, Sane, IsSpace, Before;
    WordFacts(loc, word, v);
    WordIff(word, v);
    var w := word + tail;
    assert w[0] == word[0];
    if tail == "" {
      assert w == word;
      NotThere(word, '#');
    } else {
      var n := CommentPlace(loc, tail);
      CommentStarts(loc, word, tail, n);
    }
  }

  lemma CommentPlace(loc: Locale, tail: string) returns (n: nat)
    requires Sane(loc) && Trailing(loc, tail) && '#' in tail
    ensures n < |tail| && Blank(loc, tail[..n]) && tail[n] == '#'
  {
    n :| 0 <= n <= |tail| && Blank(loc, tail[..n]) && (n == |tail| || tail[n] == '#');
    assert forall k :: 0 <= k < n ==> tail[..n][k] == tail[k];
  }

  lemma CommentStarts(loc: Locale, word: string, tail: string, n: nat)
    requires Sane(loc) && n < |tail| && Blank(loc, tail[..n]) && tail[n] == '#' && '#' !in word && word != ""
    requires !IsSpace(loc, word[0]) && !IsSpace(loc, word[|word| - 1])
    ensures var w := word + tail;
      Before(w, '#') == |word| + n && Trim(loc, w[..|word| + n]) == word
  {
    var w := word + tail;
    assert w == (word + tail[..n]) + tail[n..];
    forall k | 0 <= k < |word| + n ensures w[k] != '#' {
      if k >= |word| { assert w[k] == tail[..n][k - |word|]; }
    }
    BeforeAppend(word + tail[..n], '#', tail[n..]);
    BeforeHead(tail[n..], '#');
    assert w[..|word| + n] == "" + (word + tail[..n]);
    TrimBetween(loc, "", word, tail[..n]);
  }

  lemma NoHead(loc: Locale, head: string, w: string)
    requires Blank(loc, head) && head <= w && w != "" && !IsSpace(loc, w[0])
    ensures head == ""
  {
  }

  lemma WholeWord(loc: Locale, w: string, v: Value)
    requires WordSays(w, v)
    ensures BareAs(loc, w, w, "", v)
  {
    hide WordSays;
    assert w + "" == w;
    assert Blank(loc, ""[..0]);
  }

  lemma WithComment(loc: Locale, w: string, n: nat, v: Value) returns (tail: string)
    requires Sane(loc) && n < |w| && w[n] == '#' && !IsSpace(loc, w[0]) && WordSays(Trim(loc, w[..n]), v)
    ensures BareAs(loc, w, Trim(loc, w[..n]), tail, v)
  {
    hide WordSays, Trim, IsSpace, Sane;
    var word := Trim(loc, w[..n]);
    var head, space := TrimParts(loc, w[..n]);
    WordFacts(loc, word, v);
    NoHead(loc, head, w);
    tail := space + w[n..];
    assert w == w[..n] + w[n..];
    assert tail[..|space|] == space && tail[|space|] == '#';
  }

  lemma BareFound(loc: Locale, w: string, v: Value)
    requires Sane(loc) && w != "" && w[0] != '"' && !IsSpace(loc, w[0]) && ReadValue(loc, w) == Some(v)
    ensures exists word, tail :: BareAs(loc, w, word, tail, v)
  {
    hide Integer, WordSays, Trim, IsSpace, Sane, BareAs;
    var hash := Before(w, '#');
    if hash == |w| {
      WordIff(w, v);
      WholeWord(loc, w, v);
    } else {
      WordIff(Trim(loc, w[..hash]), v);
      var tail := WithComment(loc, w, hash, v);
    }
  }

  /** What a value comes to, for one that neither begins nor ends with a space. */
  lemma ValueIff(loc: Locale, w: string, v: Value)
    requires Sane(loc) && w != "" && !IsSpace(loc, w[0]) && !IsSpace(loc, w[|w| - 1])
    ensures ReadValue(loc, w) == Some(v) <==> ValueSays(loc, w, v)
  {
    hide ReadValue, IsSpace, Sane, WordSays, Trailing, QuotedSays;
    if w[0] == '"' {
      QuotedIff(loc, w, v);
      NoBareQuote(loc, w, v);
    } else {
      NotQuoted(w, v);
      if ReadValue(loc, w) == Some(v) { BareFound(loc, w, v); }
      if word, tail :| BareAs(loc, w, word, tail, v) {
        NoSpaceTrails(loc, w, word, tail);
        BareIsRead(loc, word, tail, v);
      }
    }
  }

  lemma NoBareQuote(loc: Locale, w: string, v: Value)
    requires Sane(loc) && w != "" && w[0] == '"'
    ensures forall word, tail :: !BareAs(loc, w, word, tail, v)
  {
    hide WordSays, Trailing, Sane;
    forall word, tail | w == word + tail ensures !WordSays(word, v) {
      assert word != "" ==> word[0] == w[0];
      if WordSays(word, v) { WordFacts(loc, word, v); }
    }
  }

  lemma NotQuoted(w: string, v: Value)
    requires w != "" && w[0] != '"'
    ensures !QuotedSays(w, v)
  {
  }

  lemma NoSpaceTrails(loc: Locale, w: string, word: string, tail: string)
    requires w == word + tail && w != "" && !IsSpace(loc, w[|w| - 1]) && Trailing(loc, tail)
    ensures '#' in tail || tail == ""
  {
    var n :| 0 <= n <= |tail| && Blank(loc, tail[..n]) && (n == |tail| || tail[n] == '#');
    assert tail != "" ==> w[|w| - 1] == tail[|tail| - 1];
    assert n == |tail| ==> tail[..n] == tail;
  }

  // ---- spaces after a value

  lemma QuotedGrows(w: string, space: string, v: Value)
    requires QuotedSays(w, v)
    ensures QuotedSays(w + space, v)
  {
    hide Concat, Meant;
    var items, rest :| QuotedAs(w, items, rest, v);
    assert w + space == "\"" + (Concat(items) + ("\"" + (rest + space)));
    assert QuotedAs(w + space, items, rest + space, v);
  }

  lemma TrailingGrows(loc: Locale, tail: string, space: string)
    requires Trailing(loc, tail) && Blank(loc, space)
    ensures Trailing(loc, tail + space)
  {
    hide IsSpace;
    var n :| 0 <= n <= |tail| && Blank(loc, tail[..n]) && (n == |tail| || tail[n] == '#');
    var more := tail + space;
    if n == |tail| {
      assert tail[..n] == tail && more[..|more|] == more;
    } else {
      assert more[..n] == tail[..n] && more[n] == '#';
    }
  }

  lemma ValueGrows(loc: Locale, w: string, space: string, v: Value)
    requires ValueSays(loc, w, v) && Blank(loc, space)
    ensures ValueSays(loc, w + space, v)
  {
    hide WordSays, Trailing, Blank, QuotedSays;
    if QuotedSays(w, v) {
      QuotedGrows(w, space, v);
    } else {
      var word, tail :| BareAs(loc, w, word, tail, v);
      TrailingGrows(loc, tail, space);
      assert w + space == word + (tail + space);
      assert BareAs(loc, w + space, word, tail + space, v);
    }
  }

  lemma BlankAppend(loc: Locale, a: string, b: string)
    requires Blank(loc, a) && Blank(loc, b)
    ensures Blank(loc, a + b)
  {
  }

  /** A value keeps what it says when the spaces after it go. */
  lemma ValueTrimmed(loc: Locale, w: string, v: Value)
    requires Sane(loc) && ValueSays(loc, w, v)
    ensures var t := TrimRight(loc, w);
      t != "" && t[0] == w[0] && !IsSpace(loc, t[0]) && !IsSpace(loc, t[|t| - 1]) && ValueSays(loc, t, v)
  {
    hide WordSays, Concat, Meant, IsSpace, TrimRight;
    if QuotedSays(w, v) {
      QuotedTrimmed(loc, w, v);
    } else {
      var word, tail :| BareAs(loc, w, word, tail, v);
      WordFacts(loc, word, v);
      BareTrimmed(loc, word, tail);
      assert BareAs(loc, TrimRight(loc, w), word, TrimRight(loc, tail), v);
    }
  }

  /** Trimming stops at a character that is no space. */
  lemma {:induction false} TrimRightUpTo(loc: Locale, s: string, rest: string)
    requires s != "" && !IsSpace(loc, s[|s| - 1])
    ensures TrimRight(loc, s + rest) == s + TrimRight(loc, rest)
  {
    if rest == "" || !IsSpace(loc, rest[|rest| - 1]) {
      assert s + rest != "" && (rest == "" ==> s + rest == s);
    } else {
      var n := |rest| - 1;
      TrimRightUpTo(loc, s, rest[..n]);
      assert (s + rest)[..|s| + n] == s + rest[..n];
    }
  }

  lemma BareTrimmed(loc: Locale, word: string, tail: string)
    requires word != "" && !IsSpace(loc, word[|word| - 1]) && Trailing(loc, tail) && Sane(loc)
    ensures TrimRight(loc, word + tail) == word + TrimRight(loc, tail) && Trailing(loc, TrimRight(loc, tail))
    ensures var t := TrimRight(loc, word + tail); !IsSpace(loc, t[|t| - 1])
  {
    hide IsSpace;
    TrimRightUpTo(loc, word, tail);
    var space := TrimRightParts(loc, tail);
    TrailingShrinks(loc, TrimRight(loc, tail), space);
  }

  lemma TrailingShrinks(loc: Locale, tail: string, space: string)
    requires Sane(loc) && Trailing(loc, tail + space) && Blank(loc, space)
    ensures Trailing(loc, tail)
  {
    var more := tail + space;
    var n :| 0 <= n <= |more| && Blank(loc, more[..n]) && (n == |more| || more[n] == '#');
    if n < |tail| {
      assert tail[..n] == more[..n];
    } else {
      assert forall k :: 0 <= k < |tail| ==> more[..n][k] == tail[k];
      assert tail[..|tail|] == tail;
    }
  }

  lemma Requote(s: string, rest: string)
    ensures "\"" + (s + ("\"" + rest)) == ("\"" + (s + "\"")) + rest
  {
  }

  lemma QuotedTrimmed(loc: Locale, w: string, v: Value)
    requires Sane(loc) && QuotedSays(w, v)
    ensures var t := TrimRight(loc, w);
      t != "" && t[0] == w[0] && !IsSpace(loc, t[0]) && !IsSpace(loc, t[|t| - 1]) && QuotedSays(t, v)
  {
    hide Concat, Meant;
    var items, rest :| QuotedAs(w, items, rest, v);
    var front := "\"" + (Concat(items) + "\"");
    var r := TrimRight(loc, rest);
    Requote(Concat(items), rest);
    Requote(Concat(items), r);
    TrimRightUpTo(loc, front, rest);
    var space := TrimRightParts(loc, rest);
    assert QuotedAs(front + r, items, r, v);
  }

  // ---- a whole line

  lemma LineIsRead(loc: Locale, raw: string, a: string, k: string, b: string, c: string, w: string, v: Value)
    requires Sane(loc) && LineAs(loc, raw, a, k, b, c, w, v)
    ensures ReadLine(loc, raw) == [(k, v)]
  {
    hide ReadValue, ValueSays, Blank, IsSpace, BareKey, Sane, TrimLeft, TrimRight;
    KeyFacts(loc, k);
    NonEmptyKey(loc, k);
    ValueTrimmed(loc, w, v);
    var t := TrimRight(loc, w);
    LineTrimmed(loc, raw, a, k, b, c, w);
    var line := k + (b + ("=" + (c + t)));
    NoEquals(loc, b);
    BeforeAppend(k + b, '=', "=" + (c + t));
    BeforeHead("=" + (c + t), '=');
    assert line == (k + b) + ("=" + (c + t));
    assert line[..|k + b|] == "" + (k + b) && line[|k + b| + 1..] == c + (t + "");
    BlankNothing(loc);
    TrimBetween(loc, "", k, b);
    TrimBetween(loc, c, t, "");
    ValueIff(loc, t, v);
  }

  lemma BlankNothing(loc: Locale)
    ensures Blank(loc, "")
  {
  }

  lemma NoEquals(loc: Locale, b: string)
    requires Sane(loc) && Blank(loc, b)
    ensures '=' !in b
  {
  }

  lemma LineTrimmed(loc: Locale, raw: string, a: string, k: string, b: string, c: string, w: string)
    requires raw == a + (k + (b + ("=" + (c + w)))) && Blank(loc, a) && Sane(loc)
    requires k != "" && !IsSpace(loc, k[0]) && TrimRight(loc, w) != ""
    ensures Trim(loc, raw) == k + (b + ("=" + (c + TrimRight(loc, w))))
  {
    hide Blank, Sane, IsSpace;
    var space := TrimRightParts(loc, w);
    var t := TrimRight(loc, w);
    var line := k + (b + ("=" + (c + t)));
    assert raw == a + (line + space);
    assert line[|line| - 1] == t[|t| - 1];
    TrimBetween(loc, a, line, space);
  }

  lemma Reassociate(head: string, p: string, k: string, q: string, p': string, value: string, q': string, tail: string)
    ensures head + (((p + (k + q)) + ("=" + (p' + (value + q')))) + tail)
         == (head + p) + (k + (q + ("=" + (p' + (value + q' + tail)))))
  {
  }

  lemma LineParts(loc: Locale, raw: string) returns (line: string, left: string, right: string)
    requires ReadLine(loc, raw) != []
    ensures line == Trim(loc, raw) && line == left + ("=" + right)
    ensures var k, value := Trim(loc, left), Trim(loc, right);
      && BareKey(loc, k) && value != "" && ReadValue(loc, value).Some?
      && ReadLine(loc, raw) == [(k, ReadValue(loc, value).value)]
  {
    hide ReadValue, BareKey, Trim;
    line := Trim(loc, raw);
    var eq := Before(line, '=');
    left, right := line[..eq], line[eq + 1..];
    assert line == left + ("=" + right);
  }

  lemma LineFound(loc: Locale, raw: string) returns (a: string, b: string, c: string, w: string)
    requires Sane(loc) && ReadLine(loc, raw) != []
    ensures |ReadLine(loc, raw)| == 1
    ensures LineAs(loc, raw, a, ReadLine(loc, raw)[0].0, b, c, w, ReadLine(loc, raw)[0].1)
  {
    hide ReadLine, ReadValue, ValueSays, Blank, IsSpace, BareKey, Sane, Trim;
    var line, left, right := LineParts(loc, raw);
    var head, tail := TrimParts(loc, raw);
    var k, value := Trim(loc, left), Trim(loc, right);
    var p, q := TrimParts(loc, left);
    var p', q' := TrimParts(loc, right);
    var v := ReadValue(loc, value).value;
    ValueIff(loc, value, v);
    ValueGrows(loc, value, q', v);
    ValueGrows(loc, value + q', tail, v);
    BlankAppend(loc, head, p);
    a, b, c, w := head + p, q, p', value + q' + tail;
    Reassociate(head, p, k, q, p', value, q', tail);
  }

  /** A line sets `k` to `v` exactly when it says so, */
  lemma LineIff(loc: Locale, raw: string, k: string, v: Value)
    requires Sane(loc)
    ensures ReadLine(loc, raw) == [(k, v)] <==> LineSays(loc, raw, k, v)
  {
    hide ReadLine, LineAs;
    if ReadLine(loc, raw) == [(k, v)] {
      var a, b, c, w := LineFound(loc, raw);
    }
    if a, b, c, w :| LineAs(loc, raw, a, k, b, c, w, v) {
      LineIsRead(loc, raw, a, k, b, c, w, v);
    }
  }

  /** and otherwise it sets nothing. */
  lemma OtherLinesSayNothing(loc: Locale, raw: string)
    requires Sane(loc)
    ensures ReadLine(loc, raw) == [] <==> forall k, v :: !LineSays(loc, raw, k, v)
  {
    hide ReadLine, LineAs, LineSays;
    if ReadLine(loc, raw) != [] {
      var a, b, c, w := LineFound(loc, raw);
      var e := ReadLine(loc, raw)[0];
      assert ReadLine(loc, raw) == [(e.0, e.1)];
      LineIff(loc, raw, e.0, e.1);
    }
    forall k, v | LineSays(loc, raw, k, v) ensures ReadLine(loc, raw) == [(k, v)] {
      LineIff(loc, raw, k, v);
    }
  }

  // ---- a whole file

  function Joined(lines: seq<string>): string
    requires lines != []
  {
    if |lines| == 1 then lines[0] else lines[0] + "\n" + Joined(lines[1..])
  }

  function EachRead(loc: Locale, lines: seq<string>): Table {
    if lines == [] then [] else ReadLine(loc, lines[0]) + EachRead(loc, lines[1..])
  }

  lemma {:induction false} LinesInOrder(loc: Locale, lines: seq<string>)
    requires lines != [] && forall k :: 0 <= k < |lines| ==> '\n' !in lines[k]
    ensures ReadLines(loc, Joined(lines)) == EachRead(loc, lines)
  {
    hide ReadLine, ReadLines;
    if |lines| == 1 {
      OneLine(loc, lines[0], "");
    } else {
      LinesInOrder(loc, lines[1..]);
      OneLine(loc, lines[0], Joined(lines[1..]));
    }
  }

  /** A file is its lines, with or without a byte order mark before them. */
  lemma FileIsItsLines(loc: Locale, lines: seq<string>)
    requires lines != [] && forall k :: 0 <= k < |lines| ==> '\n' !in lines[k]
    ensures Parse(loc, "\U{FEFF}" + Joined(lines)) == EachRead(loc, lines)
    ensures Joined(lines) == "" || Joined(lines)[0] != '\U{FEFF}' ==> Parse(loc, Joined(lines)) == EachRead(loc, lines)
  {
    hide ReadLines;
    LinesInOrder(loc, lines);
    assert ("\U{FEFF}" + Joined(lines))[1..] == Joined(lines);
  }
}
