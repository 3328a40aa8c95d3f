/** The settings reader and writer as they run, and the lookup over the two files. */
module SettingsFile {
  import opened Characters
  import opened Wrappers
  import opened SettingsFormat

  lemma TrimLeftTo(loc: Locale, s: string, a: nat)
    requires a <= |s| && forall k :: 0 <= k < a ==> IsSpace(loc, s[k])
    ensures TrimLeft(loc, s) == TrimLeft(loc, s[a..])
  {
    if a == 0 {
      assert s[0..] == s;
    } else {
      TrimLeftTo(loc, s[1..], a - 1);
      assert s[1..][a - 1..] == s[a..];
    }
  }

  lemma {:induction false} TrimRightTo(loc: Locale, s: string, b: nat)
    requires b <= |s| && forall k :: b <= k < |s| ==> IsSpace(loc, s[k])
    ensures TrimRight(loc, s) == TrimRight(loc, s[..b])
  {
    if b == |s| {
      assert s[..b] == s;
    } else {
      TrimRightTo(loc, s[..|s| - 1], b);
      assert s[..|s| - 1][..b] == s[..b];
    }
  }

  method TrimText(loc: Locale, s: string) returns (r: string)
    ensures r == Trim(loc, s)
  {
    hide IsSpace;
    var a, b := 0, |s|;
    while a < b && IsSpace(loc, s[a])
      invariant 0 <= a <= b == |s| && forall k :: 0 <= k < a ==> IsSpace(loc, s[k])
    {
      a := a + 1;
    }
    TrimLeftTo(loc, s, a);
    ghost var left := s[a..];
    assert TrimLeft(loc, left) == left;
    while b > a && IsSpace(loc, s[b - 1])
      invariant a <= b <= |s| && forall k :: b <= k < |s| ==> IsSpace(loc, s[k])
    {
      b := b - 1;
    }
    forall k | b - a <= k < |left| ensures IsSpace(loc, left[k]) {
      assert left[k] == s[a + k];
    }
    TrimRightTo(loc, left, b - a);
    r := s[a..b];
    assert left[..b - a] == r;
    assert r != "" ==> r[|r| - 1] == s[b - 1];
  }

  /** What has been taken off the front goes before what is still to come. */
  function After(out: string, o: Option<string>): Option<string> {
    if o.None? then None else Some(out + o.value)
  }

  lemma AfterOne(out: string, c: char, o: Option<string>)
    ensures After(out, Prefixed(c, o)) == After(out + [c], o)
    ensures After("", o) == o
  {
    if o.Some? {
      assert out + ([c] + o.value) == (out + [c]) + o.value;
      assert "" + o.value == o.value;
    }
  }

  method UnquoteText(s: string) returns (r: Option<string>)
    ensures r == Unquote(s)
  {
    hide After, Prefixed;
    var out: string, i := "", 0;
    assert s[0..] == s;
    AfterOne("", ' ', Unquote(s));
    while i < |s|
      invariant 0 <= i <= |s| && Unquote(s) == After(out, Unquote(s[i..]))
      decreases |s| - i
    {
      ghost var t := s[i..];
      if s[i] == '\\' && i + 1 < |s| {
        assert t[2..] == s[i + 2..] && t[1] == s[i + 1];
        AfterOne(out, s[i + 1], Unquote(s[i + 2..]));
        out := out + [s[i + 1]];
        i := i + 2;
      } else if s[i] == '"' {
        AfterEnd(out);
        return Some(out);
      } else {
        assert t[1..] == s[i + 1..];
        AfterOne(out, s[i], Unquote(s[i + 1..]));
        out := out + [s[i]];
        i := i + 1;
      }
    }
    AfterEnd(out);
    r := None;
  }

  lemma AfterEnd(out: string)
    ensures After(out, Some("")) == Some(out) && After(out, None) == None
  {
    assert out + "" == out;
  }

  method IntegerText(s: string) returns (r: Option<int>)
    ensures r == Integer(s)
  {
    var i, neg := 0, false;
    if s != "" && (s[0] == '+' || s[0] == '-') {
      neg := s[0] == '-';
      i := 1;
    }
    if i >= |s| {
      return None;
    }
    ghost var body := s[i..];
    assert i == 0 ==> body == s;
    var n := 0;
    while i < |s|
      invariant 0 <= i <= |s| && 0 <= n <= NUMBER_MAX && Digits(body, 0) == Digits(s[i..], n)
    {
      assert s[i..][1..] == s[i + 1..];
      if !IsDigit(s[i]) || n * 10 + (s[i] - '0') as int > NUMBER_MAX {
        return None;
      }
      n := n * 10 + (s[i] - '0') as int;
      i := i + 1;
    }
    r := Some(if neg then 0 - n else n);
  }

  method FindChar(s: string, from: nat, c: char) returns (i: nat)
    requires from <= |s|
    ensures i == from + Before(s[from..], c) && i <= |s|
  {
    i := from;
    while i < |s| && s[i] != c
      invariant from <= i <= |s| && from + Before(s[from..], c) == i + Before(s[i..], c)
    {
      assert s[i..][1..] == s[i + 1..];
      i := i + 1;
    }
  }

  method ReadValueText(loc: Locale, value: string) returns (r: Option<Value>)
    requires value != ""
    ensures r == ReadValue(loc, value)
  {
    hide Trim, Unquote, Integer;
    if value[0] == '"' {
      var s := UnquoteText(value[1..]);
      if s.None? {
        return None;
      }
      return Some(Text(if |s.value| > STRING_CAP then s.value[..STRING_CAP] else s.value));
    }
    assert value[0..] == value;
    var hash := FindChar(value, 0, '#');
    var bare := value;
    if hash < |value| {
      bare := TrimText(loc, value[..hash]);
    }
    if bare == "true" {
      return Some(Number(1));
    }
    if bare == "false" {
      return Some(Number(0));
    }
    var n := IntegerText(bare);
    r := if n.None? then None else Some(Number(n.value));
  }

  method ReadLineText(loc: Locale, raw: string) returns (r: Option<(string, Value)>)
    ensures ReadLine(loc, raw) == if r.None? then [] else [r.value]
  {
    hide Trim, ReadValue;
    var line := TrimText(loc, raw);
    if line == "" || line[0] == '#' {
      return None;
    }
    assert line[0..] == line;
    var eq := FindChar(line, 0, '=');
    if eq == |line| {
      return None;
    }
    var key := TrimText(loc, line[..eq]);
    var value := TrimText(loc, line[eq + 1..]);
    if !BareKey(loc, key) || value == "" {
      return None;
    }
    var v := ReadValueText(loc, value);
    r := if v.None? then None else Some((key, v.value));
  }

  /** One line off the front of the lines from `pos` on. */
  lemma LineStep(loc: Locale, toml: string, pos: nat, nl: nat)
    requires pos <= nl <= |toml| && nl == pos + Before(toml[pos..], '\n')
    ensures ReadLines(loc, toml[pos..]) ==
            ReadLine(loc, toml[pos..nl]) + if nl < |toml| then ReadLines(loc, toml[nl + 1..]) else []
  {
    hide ReadLine, ReadLines, Before;
    var text := toml[pos..];
    FirstLine(loc, text);
    assert text[..nl - pos] == toml[pos..nl];
    if nl < |toml| {
      assert text[nl - pos + 1..] == toml[nl + 1..];
    }
  }

  lemma FirstLine(loc: Locale, text: string)
    ensures var nl := Before(text, '\n');
      ReadLines(loc, text) == ReadLine(loc, text[..nl]) + if nl < |text| then ReadLines(loc, text[nl + 1..]) else []
  {
    hide ReadLine, Before;
  }

  method ParseText(loc: Locale, toml: string) returns (out: Table)
    ensures out == Parse(loc, toml)
  {
    hide ReadLine, ReadLines, Before;
    out := [];
    var pos := if toml != "" && toml[0] == BOM then 1 else 0;
    assert toml[0..] == toml;
    ghost var rest := ReadLines(loc, toml[pos..]);
    ghost var all := rest;
    while pos <= |toml|
      invariant 0 <= pos <= |toml| + 1
      invariant rest == if pos <= |toml| then ReadLines(loc, toml[pos..]) else []
      invariant out + rest == all
      decreases |toml| + 1 - pos
    {
      var nl := FindChar(toml, pos, '\n');
      LineStep(loc, toml, pos, nl);
      var entry := ReadLineText(loc, toml[pos..nl]);
      rest := if nl < |toml| then ReadLines(loc, toml[nl + 1..]) else [];
      pos := nl + 1;
      if entry.Some? {
        out := out + [entry.value];
      }
    }
  }

  method SerializeText(t: Table) returns (out: string)
    ensures out == Serialize(t)
  {
    hide WriteLine;
    out := HEADER;
    var i := 0;
    while i < |t|
      invariant 0 <= i <= |t| && out + WriteLines(t[i..]) == Serialize(t)
    {
      assert t[i..][1..] == t[i + 1..];
      out := out + WriteLine(t[i]);
      i := i + 1;
    }
  }

  // ---- lookup

  /** Equal up to letter case. */
  predicate SameName(fold: char -> char, a: string, b: string) {
    |a| == |b| && forall k :: 0 <= k < |a| ==> fold(a[k]) == fold(b[k])
  }

  /** The last line that names a setting. */
  function LastNamed(fold: char -> char, t: Table, name: string): (r: Option<nat>)
    ensures r.Some? ==> r.value < |t| && SameName(fold, t[r.value].0, name)
    ensures r.Some? ==> forall k :: r.value < k < |t| ==> !SameName(fold, t[k].0, name)
    ensures r.None? ==> forall k :: 0 <= k < |t| ==> !SameName(fold, t[k].0, name)
  {
    if t == [] then None
    else if SameName(fold, t[|t| - 1].0, name) then Some(|t| - 1)
    else LastNamed(fold, t[..|t| - 1], name)
  }

  method FindKey(fold: char -> char, t: Table, name: string) returns (at: int)
    ensures -1 <= at < |t|
    ensures LastNamed(fold, t, name) == if at < 0 then None else Some(at)
  {
    at := |t| - 1;
    assert t[..|t|] == t;
    while at >= 0
      invariant -1 <= at < |t| && LastNamed(fold, t, name) == LastNamed(fold, t[..at + 1], name)
    {
      assert t[..at + 1][..at] == t[..at];
      if SameName(fold, t[at].0, name) {
        return;
      }
      at := at - 1;
    }
  }

  /** What one file says of a setting, if its last word on it has the wanted type. */
  function Answer(fold: char -> char, file: Option<Table>, name: string, wantText: bool): Option<Value> {
    if file.None? then None
    else
      var at := LastNamed(fold, file.value, name);
      if at.Some? && file.value[at.value].1.Text? == wantText then Some(file.value[at.value].1) else None
  }

  /** File `i` is the first with an answer, and `v` is it. */
  predicate FirstAnswer(fold: char -> char, files: seq<Option<Table>>, name: string, wantText: bool, i: nat, v: Option<Value>) {
    && i < |files| && Answer(fold, files[i], name, wantText) == v
    && forall k :: 0 <= k < i ==> Answer(fold, files[k], name, wantText).None?
  }

  /** The user's file first, then the machine's; a file that is missing, or holds another type, is passed over. */
  method FromFiles(fold: char -> char, files: seq<Option<Table>>, name: string, wantText: bool)
    returns (v: Option<Value>)
    ensures v.None? ==> forall k :: 0 <= k < |files| ==> Answer(fold, files[k], name, wantText).None?
    ensures v.Some? ==> exists i :: FirstAnswer(fold, files, name, wantText, i, v)
  {
    v := None;
    var i := 0;
    while i < |files| && v.None?
      invariant 0 <= i <= |files|
      invariant v.None? ==> forall k :: 0 <= k < i ==> Answer(fold, files[k], name, wantText).None?
      invariant v.Some? ==> i > 0 && FirstAnswer(fold, files, name, wantText, i - 1, v)
    {
      if files[i].Some? {
        var at := FindKey(fold, files[i].value, name);
        if at >= 0 && files[i].value[at].1.Text? == wantText {
          v := Some(files[i].value[at].1);
        }
      }
      i := i + 1;
    }
  }
}
