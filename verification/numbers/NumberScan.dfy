/** The rewriter as it runs: index scans over the text, appending to one buffer. */
module NumberScan {
  import opened Characters
  import opened Wrappers
  import opened NumberWords
  import opened NumberToken
  import opened NumberRewrite
  import opened NumberShapes
  import opened NumberExpand

  // ---- how far a token can reach

  function GroupsLen(s: string): (n: nat)
    ensures n <= |s|
    decreases |s|
  {
    if !StartsGroup(s) then 0
    else
      var n := 1 + DigitLen(s[1..]);
      n + GroupsLen(s[n..])
  }

  /** The end of the greedy match: the run, then all groups. */
  function Extent(s: string): (n: nat)
    requires MayStart(s)
    ensures n <= |s|
  {
    var first := if s[0] == '-' then 2 else 1;
    var run := first + RunLen(s[first..]);
    run + GroupsLen(s[run..])
  }

  lemma {:induction false} DigitLenTake(s: string, m: nat)
    requires m <= |s|
    ensures DigitLen(s[..m]) == if m <= DigitLen(s) then m else DigitLen(s)
  {
    if m > 0 && IsDigit(s[0]) {
      DigitLenTake(s[1..], m - 1);
      assert s[..m][1..] == s[1..][..m - 1];
    }
  }

  lemma {:induction false} RunLenTake(s: string, m: nat)
    requires m <= |s|
    ensures RunLen(s[..m]) == if m <= RunLen(s) then m else RunLen(s)
  {
    if m > 0 && IsRun(s[0]) {
      RunLenTake(s[1..], m - 1);
      assert s[..m][1..] == s[1..][..m - 1];
    }
  }

  lemma {:induction false} GroupsReach(s: string, m: nat)
    requires m <= |s| && Groups(s[..m])
    ensures m <= GroupsLen(s)
    decreases |s|
  {
    if m > 0 {
      var t := s[..m];
      assert t[1..] == s[1..][..m - 1];
      DigitLenTake(s[1..], m - 1);
      var n := 1 + DigitLen(s[1..]);
      if m > n {
        assert t[n..] == s[n..][..m - n];
        GroupsReach(s[n..], m - n);
      }
    }
  }

  lemma TailReach(s: string, m: nat)
    requires m <= |s| && Tail(s[..m])
    ensures m <= RunLen(s) + GroupsLen(s[RunLen(s)..])
  {
    hide RunLen, Groups, GroupsLen;
    RunLenTake(s, m);
    var n := RunLen(s);
    if m > n {
      assert s[..m][n..] == s[n..][..m - n];
      GroupsReach(s[n..], m - n);
    }
  }

  /** No token at the start reaches past the greedy match. */
  lemma TokenReach(s: string, j: nat)
    requires MayStart(s) && j <= |s| && Token(s[..j])
    ensures (if s[0] == '-' then 2 else 1) <= j <= Extent(s)
  {
    hide Tail;
    var first := if s[0] == '-' then 2 else 1;
    assert s[..j] != "";
    assert Unsigned(s[..j])[1..] == s[first..][..j - first];
    TailReach(s[first..], j - first);
    var run := first + RunLen(s[first..]);
    assert s[first..][RunLen(s[first..])..] == s[run..];
  }

  lemma GroupsStep(s: string, i: nat, next: nat)
    requires i + 1 < |s| && s[i] == '.' && IsDigit(s[i + 1]) && next == i + 1 + DigitLen(s[i + 1..])
    ensures next <= |s| && i + GroupsLen(s[i..]) == next + GroupsLen(s[next..])
  {
    assert s[i..][1..] == s[i + 1..];
    assert s[i..][next - i..] == s[next..];
  }

  lemma NoGroup(s: string)
    requires !StartsGroup(s)
    ensures GroupsLen(s) == 0
  {
  }

  method SkipGroups(s: string, from: nat) returns (end: nat)
    requires from <= |s|
    ensures end == from + GroupsLen(s[from..]) && end <= |s|
  {
    hide DigitLen, GroupsLen;
    end := from;
    while end < |s| && s[end] == '.' && end + 1 < |s| && IsDigit(s[end + 1])
      invariant from <= end <= |s| && from + GroupsLen(s[from..]) == end + GroupsLen(s[end..])
    {
      var next := SkipDigits(s, end + 1);
      GroupsStep(s, end, next);
      end := next;
    }
    NoGroup(s[end..]);
  }

  /** Take as much as can belong to a token, then shorten it one character at a time down to the first candidate. */
  method FindToken(s: string) returns (found: Option<nat>)
    requires MayStart(s)
    ensures found == Longest(s)
  {
    hide RunLen, GroupsLen, Token, Longest;
    var least := if s[0] == '-' then 2 else 1;
    var run := SkipRun(s, least);
    var j := SkipGroups(s, run);
    assert j == Extent(s);
    forall k: nat | j < k ensures !Candidate(s, k) {
      if k <= |s| && Token(s[..k]) { TokenReach(s, k); }
    }
    while j >= least
      invariant least - 1 <= j <= |s|
      invariant forall k: nat :: j < k ==> !Candidate(s, k)
    {
      var valid := TokenValid(s[..j]);
      if valid && !(j < |s| && (IsAlnum(s[j]) || (s[j] == '.' && j + 1 < |s| && IsDigit(s[j + 1])))) {
        found := Some(j);
        LongestIs(s, found);
        return;
      }
      j := j - 1;
    }
    found := None;
    forall k: nat ensures !Candidate(s, k) {
      if k <= j && Token(s[..k]) { TokenReach(s, k); }
    }
    LongestIs(s, found);
  }

  // ---- one token

  lemma SplitDotsAt(s: string, i: nat)
    requires i < |s| && s[i] == '.' && '.' !in s[..i]
    ensures SplitDots(s) == [s[..i]] + SplitDots(s[i + 1..])
  {
    if i > 0 {
      assert s[1..][..i - 1] == s[..i][1..];
      SplitDotsAt(s[1..], i - 1);
      assert s[1..][i..] == s[i + 1..];
      assert [s[0]] + s[1..][..i - 1] == s[..i];
    }
  }

  lemma NoCommasTake(s: string, i: nat)
    requires i < |s|
    ensures NoCommas(s[..i + 1]) == NoCommas(s[..i]) + if s[i] == ',' then "" else [s[i]]
    ensures |NoCommas(s[..i + 1])| <= |NoCommas(s)|
  {
    NoCommasAppend(s[..i], [s[i]]);
    assert s[..i + 1] == s[..i] + [s[i]];
    assert [s[i]][1..] == "";
    NoCommasAppend(s[..i + 1], s[i + 1..]);
    assert s[..i + 1] + s[i + 1..] == s;
  }

  method Clean(body: string) returns (clean: Option<string>)
    ensures clean == if |NoCommas(body)| > CLEAN_MAX then None else Some(NoCommas(body))
  {
    hide NoCommas;
    var out := "";
    var i := 0;
    assert NoCommas(body[..0]) == "" by { NoCommasEmpty(); }
    while i < |body|
      invariant 0 <= i <= |body| && out == NoCommas(body[..i]) && |out| <= CLEAN_MAX
    {
      NoCommasTake(body, i);
      if body[i] != ',' {
        if |out| + 1 >= CLEAN_MAX + 1 {
          return None;
        }
        out := out + [body[i]];
      }
      i := i + 1;
    }
    assert body[..i] == body;
    clean := Some(out);
  }

  lemma NoCommasEmpty()
    ensures NoCommas("") == ""
  {
  }

  method SplitParts(clean: string) returns (parts: Option<seq<string>>)
    ensures parts == if |SplitDots(clean)| > PARTS_MAX || "" in SplitDots(clean) then None else Some(SplitDots(clean))
  {
    hide SplitDots;
    var out: seq<string> := [];
    var start := 0;
    var i := 0;
    while i <= |clean|
      invariant 0 <= start <= |clean| + 1 && start <= i <= |clean| + 1 && (i == |clean| + 1 <==> start == |clean| + 1)
      invariant |out| <= PARTS_MAX && "" !in out
      invariant start <= |clean| ==> SplitDots(clean) == out + SplitDots(clean[start..]) && '.' !in clean[start..i]
      invariant start > |clean| ==> SplitDots(clean) == out
    {
      if i == |clean| || clean[i] == '.' {
        ghost var rest := clean[start..];
        assert rest[..i - start] == clean[start..i];
        if i == |clean| {
          assert rest == clean[start..i];
          OnePart(rest);
        } else {
          SplitDotsAt(rest, i - start);
          assert rest[i - start + 1..] == clean[i + 1..];
        }
        assert SplitDots(clean)[|out|] == clean[start..i];
        if |out| >= PARTS_MAX || i == start {
          return None;
        }
        out := out + [clean[start..i]];
        start := i + 1;
      }
      i := i + 1;
    }
    parts := Some(out);
  }

  method ParsePart(p: string) returns (v: Option<nat>)
    requires AllDigits(p)
    ensures v == if p == "" || |p| > 19 then None else Some(Value(p))
  {
    if |p| == 0 || |p| > 19 {
      return None;
    }
    var n, i := 0, 0;
    while i < |p|
      invariant 0 <= i <= |p| && n == Value(p[..i])
    {
      assert p[..i + 1][..i] == p[..i];
      n := n * 10 + Digit(p[i]);
      i := i + 1;
    }
    assert p[..i] == p;
    v := Some(n);
  }

  method AddPart(b: Buffer, p: string) returns (ok: bool)
    requires AllDigits(p)
    modifies b
    ensures ok == SpokenPart(p).Some? && b.text == old(b.text) + if ok then SpokenPart(p).value else ""
  {
    hide Spoken, Value;
    var v := ParsePart(p);
    ok := false;
    if v.Some? {
      ok := ToWords(b, v.value);
    }
  }

  method AddAloud(b: Buffer, p: string)
    requires AllDigits(p)
    modifies b
    ensures b.text == old(b.text) + Aloud(p)
  {
    hide Ones;
    var i := 0;
    while i < |p|
      invariant 0 <= i <= |p| && b.text == old(b.text) + Aloud(p[..i])
    {
      assert p[..i + 1][..i] == p[..i];
      if i > 0 {
        b.Add(" ");
      }
      b.Add(Ones(Digit(p[i])));
      i := i + 1;
    }
    assert p[..i] == p;
  }

  lemma VersionStep(parts: seq<string>, i: nat)
    requires 0 < i < |parts| && DigitParts(parts) && SpokenVersion(parts[..i]).Some?
    ensures SpokenVersion(parts[..i + 1]) ==
            if SpokenPart(parts[i]).Some? then Some(SpokenVersion(parts[..i]).value + " point " + SpokenPart(parts[i]).value)
            else None
  {
    assert parts[..i + 1][..i] == parts[..i];
  }

  /** The parts in words with the points between; stops at one that cannot be said. */
  method AddParts(b: Buffer, parts: seq<string>) returns (ok: bool)
    requires parts != [] && DigitParts(parts)
    modifies b
    ensures ok == SpokenVersion(parts).Some? && old(b.text) <= b.text
    ensures ok ==> b.text == old(b.text) + SpokenVersion(parts).value
  {
    hide SpokenPart, SpokenVersion;
    FirstPart(parts);
    ok := AddPart(b, parts[0]);
    var i := 1;
    while ok && i < |parts|
      invariant 1 <= i <= |parts| && old(b.text) <= b.text
      invariant ok == SpokenVersion(parts[..i]).Some?
      invariant ok ==> b.text == old(b.text) + SpokenVersion(parts[..i]).value
    {
      VersionStep(parts, i);
      b.Add(" point ");
      ok := AddPart(b, parts[i]);
      i := i + 1;
    }
    if ok {
      assert parts[..i] == parts;
    } else {
      VersionNeeds(parts, i);
    }
  }

  lemma FirstPart(parts: seq<string>)
    requires parts != [] && DigitParts(parts)
    ensures SpokenVersion(parts[..1]) == SpokenPart(parts[0])
  {
  }

  /** Every part in words, or nothing at all: what was said of it is unsaid. */
  method AddVersion(b: Buffer, parts: seq<string>, negative: bool) returns (ok: bool)
    requires parts != [] && DigitParts(parts)
    modifies b
    ensures ok == SpokenVersion(parts).Some?
    ensures b.text == old(b.text) + if ok then Signed(negative, "minus ", SpokenVersion(parts)).value else ""
  {
    hide SpokenVersion;
    var mark := |b.text|;
    if negative {
      b.Add("minus ");
    }
    ok := AddParts(b, parts);
    if !ok {
      b.Rollback(mark);
    }
  }

  lemma {:induction false} VersionNeeds(parts: seq<string>, i: nat)
    requires 0 < i <= |parts| && DigitParts(parts) && SpokenVersion(parts[..i]).None?
    ensures SpokenVersion(parts).None?
  {
    if i == |parts| {
      assert parts[..i] == parts;
    } else {
      var n := |parts| - 1;
      assert parts[..n][..i] == parts[..i];
      VersionNeeds(parts[..n], i);
    }
  }

  method AddInWords(b: Buffer, parts: seq<string>, negative: bool) returns (ok: bool)
    requires 1 <= |parts| <= 2 && DigitParts(parts)
    modifies b
    ensures ok == Quantity(parts, negative, InWords).Some?
    ensures b.text == old(b.text) + if ok then Quantity(parts, negative, InWords).value else ""
  {
    hide SpokenPart, Aloud;
    var mark := |b.text|;
    ghost var sign := if negative then "minus " else "";
    if negative {
      b.Add("minus ");
    }
    ghost var signed := b.text;
    ok := AddPart(b, parts[0]);
    if !ok {
      b.Rollback(mark);
      return;
    }
    ghost var said := SpokenPart(parts[0]).value;
    if |parts| == 2 {
      b.Add(" point ");
      AddAloud(b, parts[1]);
      Regroup(signed, said, " point ");
      Regroup(signed, said + " point ", Aloud(parts[1]));
      said := said + " point " + Aloud(parts[1]);
    }
    assert b.text == signed + said;
    Regroup(old(b.text), sign, said);
  }

  /** Change only what is read wrongly: a decimal with a zero in front, and a long run. */
  method AddFixed(b: Buffer, parts: seq<string>, negative: bool) returns (ok: bool)
    requires 1 <= |parts| <= 2 && DigitParts(parts)
    modifies b
    ensures ok == Quantity(parts, negative, Fix).Some?
    ensures b.text == old(b.text) + if ok then Quantity(parts, negative, Fix).value else ""
  {
    hide Aloud, Group;
    if |parts| == 2 {
      var allZero := true;
      for i := 0 to |parts[0]|
        invariant allZero && forall k :: 0 <= k < i ==> parts[0][k] == '0'
      {
        if parts[0][i] != '0' {
          allZero := false;
          break;
        }
      }
      if !allZero || |parts[0]| == 0 || |parts[0]| > 2 {
        return false;
      }
      if negative {
        b.Add("minus ");
      }
      ghost var signed, said := b.text, Aloud(parts[1]);
      b.Add("zero point ");
      AddAloud(b, parts[1]);
      Regroup(signed, "zero point ", said);
      Regroup(old(b.text), "minus ", "zero point " + said);
      return true;
    }
    if |parts[0]| >= LONG_DIGITS {
      if negative {
        b.Add("-");
      }
      AddGrouped(b, parts[0]);
      Regroup(old(b.text), "-", Group(parts[0]));
      return true;
    }
    ok := false;
  }

  /** One token, rewritten into the buffer, or nothing appended. */
  method AddRewritten(b: Buffer, tok: string, style: Style) returns (ok: bool)
    requires BodyText(Unsigned(tok)) && style != Off
    modifies b
    ensures ok == Rewrite(tok, style).Some?
    ensures b.text == old(b.text) + if ok then Rewrite(tok, style).value else ""
  {
    hide NoCommas, SplitDots, Quantity, SpokenVersion;
    var negative := tok != "" && tok[0] == '-';
    var body := if negative then tok[1..] else tok;
    BodyParts(body);
    var clean := Clean(body);
    if clean.None? {
      return false;
    }
    var parts := SplitParts(clean.value);
    if parts.None? {
      return false;
    }
    if |parts.value| > 2 {
      ok := AddVersion(b, parts.value, negative);
    } else {
      if style == InWords {
        ok := AddInWords(b, parts.value, negative);
      } else {
        ok := AddFixed(b, parts.value, negative);
      }
    }
  }

  // ---- the whole text

  method FindCommand(text: string, i: nat) returns (len: Option<nat>)
    requires i < |text|
    ensures len == CommandLen(text[i..])
  {
    if !(text[i] == '[' && i + 1 < |text| && text[i + 1] == '[') {
      return None;
    }
    var s := text[i..];
    var c := 2;
    while c + 1 < |s| && !(s[c] == ']' && s[c + 1] == ']')
      invariant 2 <= c <= |s| && FindClose(s, 2) == FindClose(s, c)
    {
      c := c + 1;
    }
    if c + 1 < |s| && c - 2 <= COMMAND_MAX {
      len := Some(c + 2);
    } else {
      len := None;
    }
  }

  /** Scan one piece off the front of `s` and append what it becomes. */
  method AddPiece(b: Buffer, blocked: bool, s: string, style: Style) returns (len: nat)
    requires s != "" && style != Off
    modifies b
    ensures len == Next(blocked, s).len && b.text == old(b.text) + PieceOut(s, Next(blocked, s), style)
  {
    hide Longest, Rewrite, Token, CommandLen;
    var command := FindCommand(s, 0);
    assert s[0..] == s;
    if command.Some? {
      len := command.value;
      b.Add(s[..len]);
      return;
    }
    var found: Option<nat> := None;
    if MayStart(s) && !blocked {
      found := FindToken(s);
    }
    if found.Some? {
      len := found.value;
      assert Next(blocked, s) == Number(len);
      TokenIsBody(s[..len]);
      var ok := AddRewritten(b, s[..len], style);
      if !ok {
        b.Add(s[..len]);
      }
    } else {
      len := 1;
      b.Add(s[..1]);
    }
  }

  method ExpandText(text: string, style: Style) returns (out: string)
    ensures out == Expand(text, style) && (style == Off ==> out == text)
  {
    if style == Off {
      return text;
    }
    out := ScanText(text, style);
  }

  method ScanText(text: string, style: Style) returns (out: string)
    requires style != Off
    ensures out == ExpandFrom(false, text, style)
  {
    hide Next, PieceOut, Blocks, ExpandFrom;
    var b := new Buffer();
    var i, blocked := 0, false;
    ghost var left := ExpandFrom(false, text, style);
    assert text[0..] == text;
    while i < |text|
      invariant 0 <= i <= |text| && blocked == (i > 0 && Blocks(text[i - 1]))
      invariant left == ExpandFrom(blocked, text[i..], style)
      invariant b.text + left == ExpandFrom(false, text, style)
    {
      PieceStep(b.text, text, i, blocked, style);
      var len := AddPiece(b, blocked, text[i..], style);
      i := i + len;
      blocked := Blocks(text[i - 1]);
      left := ExpandFrom(blocked, text[i..], style);
    }
    NothingLeft(text, i, blocked, style);
    out := b.text;
  }

  lemma NothingLeft(text: string, i: nat, blocked: bool, style: Style)
    requires i == |text|
    ensures ExpandFrom(blocked, text[i..], style) == ""
  {
  }

  /** Appending one piece's output moves the scan past the piece. */
  lemma ExpandOnce(blocked: bool, s: string, style: Style)
    requires s != ""
    ensures var p := Next(blocked, s);
      ExpandFrom(blocked, s, style) == PieceOut(s, p, style) + ExpandFrom(Blocks(s[p.len - 1]), s[p.len..], style)
  {
  }

  lemma PieceStep(done: string, text: string, i: nat, blocked: bool, style: Style)
    requires i < |text|
    ensures var p := Next(blocked, text[i..]);
      && i + p.len <= |text|
      && done + ExpandFrom(blocked, text[i..], style) ==
         (done + PieceOut(text[i..], p, style)) + ExpandFrom(Blocks(text[i + p.len - 1]), text[i + p.len..], style)
  {
    hide Next, PieceOut, Blocks, ExpandFrom;
    var s := text[i..];
    var p := Next(blocked, s);
    ExpandOnce(blocked, s, style);
    assert s[p.len..] == text[i + p.len..] && s[p.len - 1] == text[i + p.len - 1];
    Regroup(done, PieceOut(s, p, style), ExpandFrom(Blocks(s[p.len - 1]), s[p.len..], style));
  }
}
