/** Reading and writing settings undo each other, exactly as far as they can. */
module SettingsLaws {
  import opened Characters
  import opened Wrappers
  import opened SettingsFormat

  ghost predicate HoldableValue(v: Value) {
    match v
    case Text(s) => |s| <= STRING_CAP && '\n' !in s
    case Number(n) => -NUMBER_MAX <= n <= NUMBER_MAX
  }

  /** What a setting file can hold. */
  ghost predicate Holdable(loc: Locale, e: (string, Value)) {
    BareKey(loc, e.0) && HoldableValue(e.1)
  }

  ghost predicate WellFormed(loc: Locale, t: Table) {
    forall k :: 0 <= k < |t| ==> Holdable(loc, t[k])
  }

  // ---- everything that is read can be held

  lemma {:induction false} DigitsInRange(s: string, n: nat)
    requires n <= NUMBER_MAX && Digits(s, n).Some?
    ensures Digits(s, n).value <= NUMBER_MAX
  {
    if s != "" {
      DigitsInRange(s[1..], n * 10 + (s[0] - '0') as nat);
    }
  }

  lemma {:induction false} UnquoteKeeps(s: string, c: char)
    requires c !in s && Unquote(s).Some?
    ensures c !in Unquote(s).value
    decreases |s|
  {
    if s[0] == '\\' && |s| > 1 {
      UnquoteKeeps(s[2..], c);
    } else if s[0] != '"' {
      UnquoteKeeps(s[1..], c);
    }
  }

  lemma {:induction false} TrimLeftKeeps(loc: Locale, s: string, c: char)
    requires c !in s
    ensures c !in TrimLeft(loc, s)
  {
    if s != "" && IsSpace(loc, s[0]) {
      TrimLeftKeeps(loc, s[1..], c);
    }
  }

  lemma {:induction false} TrimRightKeeps(loc: Locale, s: string, c: char)
    requires c !in s
    ensures c !in TrimRight(loc, s)
  {
    if s != "" && IsSpace(loc, s[|s| - 1]) {
      TrimRightKeeps(loc, s[..|s| - 1], c);
    }
  }

  lemma TrimKeeps(loc: Locale, s: string, c: char)
    requires c !in s
    ensures c !in Trim(loc, s)
  {
    TrimLeftKeeps(loc, s, c);
    TrimRightKeeps(loc, TrimLeft(loc, s), c);
  }

  lemma ReadValueHoldable(loc: Locale, value: string)
    requires value != "" && '\n' !in value && ReadValue(loc, value).Some?
    ensures HoldableValue(ReadValue(loc, value).value)
  {
    if value[0] == '"' {
      UnquoteKeeps(value[1..], '\n');
    } else {
      var hash := Before(value, '#');
      var bare := if hash < |value| then Trim(loc, value[..hash]) else value;
      if bare != "true" && bare != "false" {
        var body := if bare[0] == '+' || bare[0] == '-' then bare[1..] else bare;
        DigitsInRange(body, 0);
      }
    }
  }

  lemma ReadLineHoldable(loc: Locale, raw: string)
    requires '\n' !in raw
    ensures WellFormed(loc, ReadLine(loc, raw))
  {
    hide Trim, ReadValue, BareKey;
    var line := Trim(loc, raw);
    TrimKeeps(loc, raw, '\n');
    var eq := Before(line, '=');
    if eq < |line| {
      TrimKeeps(loc, line[eq + 1..], '\n');
      var value := Trim(loc, line[eq + 1..]);
      if value != "" && ReadValue(loc, value).Some? {
        ReadValueHoldable(loc, value);
      }
    }
  }

  lemma {:induction false} ReadLinesHoldable(loc: Locale, text: string)
    ensures WellFormed(loc, ReadLines(loc, text))
    decreases |text|
  {
    hide ReadLine, Holdable;
    var nl := Before(text, '\n');
    ReadLineHoldable(loc, text[..nl]);
    if nl < |text| {
      ReadLinesHoldable(loc, text[nl + 1..]);
    }
  }

  // ---- lines do not disturb each other

  lemma {:induction false} BeforeAppend(s: string, c: char, rest: string)
    requires c !in s
    ensures Before(s + rest, c) == |s| + Before(rest, c)
  {
    if s == "" {
      assert s + rest == rest;
    } else {
      BeforeAppend(s[1..], c, rest);
      assert (s + rest)[1..] == s[1..] + rest;
    }
  }

  lemma BeforeHead(s: string, c: char)
    requires s != "" && s[0] == c
    ensures Before(s, c) == 0
  {
  }

  lemma OneLine(loc: Locale, s: string, rest: string)
    requires '\n' !in s
    ensures ReadLines(loc, s) == ReadLine(loc, s)
    ensures ReadLines(loc, s + "\n" + rest) == ReadLine(loc, s) + ReadLines(loc, rest)
  {
    hide ReadLine, Before;
    var t := s + "\n" + rest;
    assert s + "" == s && t == s + ("\n" + rest);
    BeforeAppend(s, '\n', "");
    BeforeAppend(s, '\n', "\n" + rest);
    assert Before("\n" + rest, '\n') == 0 by { assert ("\n" + rest)[0] == '\n'; BeforeHead("\n" + rest, '\n'); }
    assert Before("", '\n') == 0;
    assert t[..|s|] == s && t[|s| + 1..] == rest && s[..|s|] == s;
  }

  /** Reading two texts joined by a line end is reading each: a bad line never disturbs another. */
  lemma {:induction false} LinesAppend(loc: Locale, a: string, b: string)
    ensures ReadLines(loc, a + "\n" + b) == ReadLines(loc, a) + ReadLines(loc, b)
    decreases |a|
  {
    hide ReadLine, ReadLines;
    var nl := Before(a, '\n');
    if nl == |a| {
      OneLine(loc, a, b);
    } else {
      var s, rest := a[..nl], a[nl + 1..];
      assert a == s + "\n" + rest;
      LinesAppend(loc, rest, b);
      OneLine(loc, s, rest);
      OneLine(loc, s, rest + "\n" + b);
      assert a + "\n" + b == s + "\n" + (rest + "\n" + b);
    }
  }

  lemma ParseAppend(loc: Locale, a: string, b: string)
    requires b == "" || b[0] != BOM
    ensures Parse(loc, a + "\n" + b) == Parse(loc, a) + Parse(loc, b)
  {
    hide ReadLines;
    var t := a + "\n" + b;
    if a != "" && a[0] == BOM {
      assert t[1..] == a[1..] + "\n" + b;
      LinesAppend(loc, a[1..], b);
    } else {
      LinesAppend(loc, a, b);
      assert t[0] != BOM;
    }
  }

  // ---- what is written is read back

  lemma TrimRightStops(loc: Locale, s: string, tail: string)
    requires s != "" && !IsSpace(loc, s[|s| - 1]) && forall k :: 0 <= k < |tail| ==> IsSpace(loc, tail[k])
    ensures TrimRight(loc, s + tail) == s
  {
    if tail != "" {
      var n := |tail| - 1;
      assert (s + tail)[..|s| + n] == s + tail[..n];
      TrimRightStops(loc, s, tail[..n]);
    } else {
      assert s + tail == s;
    }
  }

  lemma TrimSpaces(loc: Locale, head: string, s: string, tail: string)
    requires s != "" && !IsSpace(loc, s[0]) && !IsSpace(loc, s[|s| - 1]) && |head| <= 1
    requires (forall k :: 0 <= k < |head| ==> IsSpace(loc, head[k])) && (forall k :: 0 <= k < |tail| ==> IsSpace(loc, tail[k]))
    ensures Trim(loc, head + (s + tail)) == s
  {
    var t := head + (s + tail);
    if head != "" {
      assert t[1..] == s + tail;
      assert TrimLeft(loc, s + tail) == s + tail;
    } else {
      assert t == s + tail;
    }
    TrimRightStops(loc, s, tail);
  }

  lemma TrimKeepsHead(loc: Locale, s: string)
    requires s != "" && !IsSpace(loc, s[0])
    ensures Trim(loc, s) != "" && Trim(loc, s)[0] == s[0]
  {
    assert TrimLeft(loc, s) == s;
    TrimRightKeepsHead(loc, s);
  }

  lemma {:induction false} TrimRightKeepsHead(loc: Locale, s: string)
    requires s != "" && !IsSpace(loc, s[0])
    ensures TrimRight(loc, s) != "" && TrimRight(loc, s)[0] == s[0]
  {
    if IsSpace(loc, s[|s| - 1]) {
      TrimRightKeepsHead(loc, s[..|s| - 1]);
    }
  }

  lemma CommentIsNothing(loc: Locale, s: string)
    requires Sane(loc) && s != "" && s[0] == '#'
    ensures ReadLine(loc, s) == []
  {
    TrimKeepsHead(loc, s);
  }

  lemma {:induction false} UnquoteEscape(s: string, rest: string)
    ensures Unquote(Escape(s) + "\"" + rest) == Some(s)
  {
    var t := Escape(s) + "\"" + rest;
    if s == "" {
      assert t == "\"" + rest;
    } else {
      UnquoteEscape(s[1..], rest);
      var u := Escape(s[1..]) + "\"" + rest;
      if s[0] == '"' || s[0] == '\\' {
        assert t == ['\\', s[0]] + u;
        assert t[2..] == u;
      } else {
        assert t == [s[0]] + u;
        assert t[1..] == u;
      }
      assert [s[0]] + s[1..] == s;
    }
  }

  lemma {:induction false} DigitsDecimal(n: nat, rest: string)
    requires n <= NUMBER_MAX
    ensures Digits(Decimal(n) + rest, 0) == Digits(rest, n)
    ensures Decimal(n) != "" && forall k :: 0 <= k < |Decimal(n)| ==> IsDigit(Decimal(n)[k])
    decreases n
  {
    if n < 10 {
      assert (Decimal(n) + rest)[1..] == rest;
    } else {
      var d := ['0' + (n % 10) as char];
      DigitsDecimal(n / 10, d + rest);
      assert Decimal(n) + rest == Decimal(n / 10) + (d + rest);
      assert (d + rest)[1..] == rest;
    }
  }

  lemma IntegerWritten(n: int)
    requires -NUMBER_MAX <= n <= NUMBER_MAX
    ensures Integer(WriteValue(Number(n))) == Some(n)
  {
    hide Decimal, Digits;
    var m: nat := if n < 0 then -n else n;
    DigitsDecimal(m, "");
    assert Decimal(m) + "" == Decimal(m);
    assert Digits("", m) == Some(m) by { NoDigits(m); }
    if n < 0 {
      assert ("-" + Decimal(m))[1..] == Decimal(m);
    }
  }

  lemma NoDigits(n: nat)
    ensures Digits("", n) == Some(n)
  {
  }

  /** A written value starts and ends with no space, and reads back as itself. */
  lemma ValueWritten(loc: Locale, v: Value)
    requires Sane(loc) && HoldableValue(v)
    ensures var w := WriteValue(v);
      && w != "" && !IsSpace(loc, w[0]) && !IsSpace(loc, w[|w| - 1])
      && ReadValue(loc, w) == Some(v)
  {
    match v
    case Text(s) => TextWritten(loc, s);
    case Number(n) => NumberWritten(loc, n);
  }

  lemma TextWritten(loc: Locale, s: string)
    requires Sane(loc) && |s| <= STRING_CAP
    ensures var w := WriteValue(Text(s));
      && w != "" && w[0] == '"' && w[|w| - 1] == '"' && ReadValue(loc, w) == Some(Text(s))
  {
    hide Escape, Unquote;
    var w := WriteValue(Text(s));
    UnquoteEscape(s, "");
    assert w[1..] == Escape(s) + "\"" + "";
  }

  lemma NumberWritten(loc: Locale, n: int)
    requires Sane(loc) && -NUMBER_MAX <= n <= NUMBER_MAX
    ensures var w := WriteValue(Number(n));
      && w != "" && !IsSpace(loc, w[0]) && !IsSpace(loc, w[|w| - 1]) && ReadValue(loc, w) == Some(Number(n))
  {
    hide Decimal, Digits, Integer;
    var w := WriteValue(Number(n));
    var m: nat := if n < 0 then -n else n;
    DigitsDecimal(m, "");
    IntegerWritten(n);
    assert forall k :: 0 <= k < |w| ==> IsDigit(w[k]) || w[k] == '-';
    NotThere(w, '#');
    assert w[0] != 't' && w[0] != 'f' && w[0] != '"';
  }

  lemma {:induction false} NotThere(s: string, c: char)
    requires forall k :: 0 <= k < |s| ==> s[k] != c
    ensures Before(s, c) == |s|
  {
    if s != "" {
      NotThere(s[1..], c);
    }
  }

  lemma NoNewlineWritten(v: Value)
    requires HoldableValue(v)
    ensures '\n' !in WriteValue(v)
  {
    match v
    case Text(s) => EscapeKeeps(s, '\n');
    case Number(n) => DigitsDecimal(if n < 0 then -n else n, "");
  }

  lemma {:induction false} EscapeKeeps(s: string, c: char)
    requires c !in s && c != '\\'
    ensures c !in Escape(s)
  {
    if s != "" {
      EscapeKeeps(s[1..], c);
    }
  }

  lemma KeyFacts(loc: Locale, k: string)
    requires Sane(loc) && BareKey(loc, k)
    ensures !IsSpace(loc, k[0]) && !IsSpace(loc, k[|k| - 1]) && k[0] != '#' && '=' !in k && '\n' !in k
  {
    forall i | 0 <= i < |k| ensures k[i] != '=' && k[i] != '\n' && k[i] != '#' && !IsSpace(loc, k[i]) {
      assert KeyChar(loc, k[i]);
    }
  }

  /** A written line, without its line end, reads back as the setting. */
  lemma LineWritten(loc: Locale, k: string, v: Value)
    requires Sane(loc) && BareKey(loc, k) && HoldableValue(v)
    ensures var line := k + " = " + WriteValue(v);
      ReadLine(loc, line + "\r") == [(k, v)] && '\n' !in line + "\r"
  {
    hide WriteValue, ReadValue, Trim, BareKey, Sane;
    var w := WriteValue(v);
    var line := k + " = " + w;
    SaneSpaces(loc);
    KeyFacts(loc, k);
    ValueWritten(loc, v);
    NoNewlineWritten(v);
    assert k != "" by { NonEmptyKey(loc, k); }
    TrimSpaces(loc, "", line, "\r");
    assert "" + (line + "\r") == line + "\r";
    BeforeAppend(k, '=', " = " + w);
    assert line == k + (" = " + w);
    assert Before(" = " + w, '=') == 1 by { assert (" = " + w)[1..][0] == '='; }
    assert line[..|k| + 1] == k + " " && line[|k| + 2..] == " " + w;
    TrimSpaces(loc, "", k, " ");
    assert "" + (k + " ") == k + " ";
    TrimSpaces(loc, " ", w, "");
    assert " " + (w + "") == " " + w;
  }

  lemma SaneSpaces(loc: Locale)
    requires Sane(loc)
    ensures IsSpace(loc, ' ') && IsSpace(loc, '\r')
  {
  }

  lemma NonEmptyKey(loc: Locale, k: string)
    requires BareKey(loc, k)
    ensures k != ""
  {
  }

  lemma {:induction false} LinesWritten(loc: Locale, t: Table)
    requires Sane(loc) && WellFormed(loc, t)
    ensures ReadLines(loc, WriteLines(t)) == t
  {
    hide ReadLine, WriteValue, Sane, BareKey;
    if t == [] {
      OneLine(loc, "", "");
      EmptyLine(loc);
    } else {
      assert Holdable(loc, t[0]);
      var line := t[0].0 + " = " + WriteValue(t[0].1) + "\r";
      LineWritten(loc, t[0].0, t[0].1);
      LinesWritten(loc, t[1..]);
      OneLine(loc, line, WriteLines(t[1..]));
      assert WriteLines(t) == line + "\n" + WriteLines(t[1..]);
    }
  }

  lemma EmptyLine(loc: Locale)
    ensures ReadLine(loc, "") == []
  {
  }

  lemma FirstComment()
    ensures HEADER_1 != "" && HEADER_1[0] == '#' && '\n' !in HEADER_1
  {
  }

  lemma SecondComment()
    ensures HEADER_2 != "" && HEADER_2[0] == '#' && '\n' !in HEADER_2
  {
  }

  lemma HeaderIsNothing(loc: Locale, rest: string)
    requires Sane(loc)
    ensures ReadLines(loc, HEADER + rest) == ReadLines(loc, rest) && HEADER[0] == '#'
  {
    hide ReadLine, ReadLines;
    FirstComment();
    SecondComment();
    assert HEADER + rest == HEADER_1 + "\n" + (HEADER_2 + "\n" + rest);
    OneLine(loc, HEADER_1, HEADER_2 + "\n" + rest);
    OneLine(loc, HEADER_2, rest);
    CommentIsNothing(loc, HEADER_1);
    CommentIsNothing(loc, HEADER_2);
  }

  /** A table comes back from its file exactly when every key is bare, every string short and on
      one line, and every number in range. */
  lemma RoundTrip(loc: Locale, t: Table)
    requires Sane(loc)
    ensures Parse(loc, Serialize(t)) == t <==> WellFormed(loc, t)
  {
    hide ReadLines, WriteLines, Sane;
    var text := Serialize(t);
    HeaderIsNothing(loc, WriteLines(t));
    assert text[0] == '#';
    ReadLinesHoldable(loc, text);
    if WellFormed(loc, t) {
      LinesWritten(loc, t);
    }
  }

  /** So one pass through the reader and the writer reaches a fixed point, whatever the file held. */
  lemma RewriteIsStable(loc: Locale, toml: string)
    requires Sane(loc)
    ensures Parse(loc, Serialize(Parse(loc, toml))) == Parse(loc, toml)
  {
    var text := if toml != "" && toml[0] == BOM then toml[1..] else toml;
    ReadLinesHoldable(loc, text);
    RoundTrip(loc, Parse(loc, toml));
  }
}
