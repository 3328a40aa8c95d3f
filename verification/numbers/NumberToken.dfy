/** Number tokens: an optional minus, a digit, digits and commas, then groups of a dot and digits;
    and the longest one at the start of a text whose lookahead is satisfied. */
module NumberToken {
  import opened Characters
  import opened Wrappers

  predicate IsRun(c: char) { IsDigit(c) || c == ',' }

  /** How many leading characters are digits. */
  function DigitLen(s: string): (n: nat)
    ensures n <= |s|
    ensures forall k :: 0 <= k < n ==> IsDigit(s[k])
    ensures n < |s| ==> !IsDigit(s[n])
  {
    if s == "" || !IsDigit(s[0]) then 0 else 1 + DigitLen(s[1..])
  }

  /** How many leading characters are digits or commas. */
  function RunLen(s: string): (n: nat)
    ensures n <= |s|
    ensures forall k :: 0 <= k < n ==> IsRun(s[k])
    ensures n < |s| ==> !IsRun(s[n])
  {
    if s == "" || !IsRun(s[0]) then 0 else 1 + RunLen(s[1..])
  }

  predicate StartsGroup(s: string) { |s| > 1 && s[0] == '.' && IsDigit(s[1]) }

  /** A sequence of groups, each a dot and at least one digit. */
  predicate Groups(s: string)
    decreases |s|
  {
    s == "" || (StartsGroup(s) && Groups(s[1 + DigitLen(s[1..])..]))
  }

  predicate Tail(s: string) { Groups(s[RunLen(s)..]) }

  function Unsigned(s: string): string { if s != "" && s[0] == '-' then s[1..] else s }

  predicate Token(s: string) {
    var body := Unsigned(s);
    body != "" && IsDigit(body[0]) && Tail(body[1..])
  }

  // ---- against the pattern

  function Concat(parts: seq<string>): string {
    if parts == [] then "" else parts[0] + Concat(parts[1..])
  }

  predicate IsGroup(g: string) {
    |g| > 1 && g[0] == '.' && forall k :: 1 <= k < |g| ==> '0' <= g[k] <= '9'
  }

  /** `s` spelled as the pattern says: sign, digit, run, groups. */
  ghost predicate Spells(s: string, sign: string, d: char, run: string, groups: seq<string>) {
    && s == sign + ([d] + (run + Concat(groups)))
    && (sign == "" || sign == "-") && '0' <= d <= '9'
    && (forall k :: 0 <= k < |run| ==> '0' <= run[k] <= '9' || run[k] == ',')
    && (forall k :: 0 <= k < |groups| ==> IsGroup(groups[k]))
  }

  ghost predicate InPattern(s: string) {
    exists sign, d, run, groups :: Spells(s, sign, d, run, groups)
  }

  lemma {:induction false} GroupsSplit(s: string) returns (groups: seq<string>)
    requires Groups(s)
    ensures s == Concat(groups) && forall k :: 0 <= k < |groups| ==> IsGroup(groups[k])
    decreases |s|
  {
    if s == "" {
      groups := [];
    } else {
      var n := 1 + DigitLen(s[1..]);
      var rest := GroupsSplit(s[n..]);
      groups := [s[..n]] + rest;
    }
  }

  lemma {:induction false} ConcatIsGroups(groups: seq<string>)
    requires forall k :: 0 <= k < |groups| ==> IsGroup(groups[k])
    ensures Groups(Concat(groups)) && (Concat(groups) != "" ==> Concat(groups)[0] == '.')
  {
    if groups != [] {
      var g, rest := groups[0], Concat(groups[1..]);
      ConcatIsGroups(groups[1..]);
      assert (g + rest)[1..] == g[1..] + rest;
      LeadingDigits(g[1..], rest);
      assert (g + rest)[|g|..] == rest;
    }
  }

  lemma {:induction false} LeadingDigits(a: string, rest: string)
    requires forall k :: 0 <= k < |a| ==> IsDigit(a[k])
    requires rest != "" ==> !IsDigit(rest[0])
    ensures DigitLen(a + rest) == |a|
  {
    if a != "" {
      LeadingDigits(a[1..], rest);
      assert (a + rest)[1..] == a[1..] + rest;
    }
  }

  lemma {:induction false} LeadingRun(a: string, rest: string)
    requires forall k :: 0 <= k < |a| ==> IsRun(a[k])
    ensures RunLen(a + rest) == |a| + RunLen(rest)
  {
    if a == "" {
      assert a + rest == rest;
    } else {
      LeadingRun(a[1..], rest);
      assert (a + rest)[1..] == a[1..] + rest;
    }
  }

  lemma TokenSpells(s: string)
    requires Token(s)
    ensures InPattern(s)
  {
    hide Groups, Concat, IsGroup, RunLen, Spells;
    var body := Unsigned(s);
    var sign := if body == s then "" else "-";
    var tail := body[1..];
    var n := RunLen(tail);
    var groups := GroupsSplit(tail[n..]);
    SpellsBy(s, sign, body[0], tail, n, groups);
    assert Spells(s, sign, body[0], tail[..n], groups);
  }

  lemma SpellsBy(s: string, sign: string, d: char, tail: string, n: nat, groups: seq<string>)
    requires n <= |tail| && s == sign + ([d] + tail) && tail[n..] == Concat(groups)
    requires (sign == "" || sign == "-") && IsDigit(d)
    requires forall k :: 0 <= k < n ==> IsRun(tail[k])
    requires forall k :: 0 <= k < |groups| ==> IsGroup(groups[k])
    ensures Spells(s, sign, d, tail[..n], groups)
  {
    hide Concat, IsGroup;
    assert tail == tail[..n] + tail[n..];
  }

  lemma TailOfRun(run: string, rest: string)
    requires Groups(rest) && forall k :: 0 <= k < |run| ==> IsRun(run[k])
    ensures Tail(run + rest)
  {
    LeadingRun(run, rest);
    assert RunLen(rest) == 0;
    assert (run + rest)[|run|..] == rest;
  }

  lemma TokenOf(sign: string, d: char, tail: string)
    requires (sign == "" || sign == "-") && IsDigit(d) && Tail(tail)
    ensures Token(sign + ([d] + tail))
  {
    hide Tail;
    assert Unsigned(sign + ([d] + tail)) == [d] + tail;
    assert ([d] + tail)[1..] == tail;
  }

  lemma SpelledIsToken(s: string, sign: string, d: char, run: string, groups: seq<string>)
    requires Spells(s, sign, d, run, groups)
    ensures Token(s)
  {
    hide Token, Groups, Concat, Tail;
    ConcatIsGroups(groups);
    TailOfRun(run, Concat(groups));
    TokenOf(sign, d, run + Concat(groups));
  }

  /** The scan that accepts a token accepts exactly the pattern's strings. */
  lemma TokenIsPattern(s: string)
    ensures Token(s) <==> InPattern(s)
  {
    hide Token, Spells;
    if Token(s) {
      TokenSpells(s);
    }
    if InPattern(s) {
      var sign, d, run, groups :| Spells(s, sign, d, run, groups);
      SpelledIsToken(s, sign, d, run, groups);
    }
  }

  method SkipRun(s: string, from: nat) returns (i: nat)
    requires from <= |s|
    ensures i == from + RunLen(s[from..]) && i <= |s|
  {
    i := from;
    while i < |s| && (IsDigit(s[i]) || s[i] == ',')
      invariant from <= i <= |s| && from + RunLen(s[from..]) == i + RunLen(s[i..])
    {
      assert s[i..][1..] == s[i + 1..];
      i := i + 1;
    }
  }

  method SkipDigits(s: string, from: nat) returns (i: nat)
    requires from <= |s|
    ensures i == from + DigitLen(s[from..]) && i <= |s|
  {
    i := from;
    while i < |s| && IsDigit(s[i])
      invariant from <= i <= |s| && from + DigitLen(s[from..]) == i + DigitLen(s[i..])
    {
      assert s[i..][1..] == s[i + 1..];
      i := i + 1;
    }
  }

  /** The token check, scanning by index. */
  method TokenValid(s: string) returns (ok: bool)
    ensures ok == Token(s)
  {
    hide DigitLen, RunLen;
    if |s| == 0 {
      return false;
    }
    var i := if s[0] == '-' then 1 else 0;
    assert Unsigned(s) == s[i..];
    if i >= |s| || !IsDigit(s[i]) {
      return false;
    }
    assert s[i..][1..] == s[i + 1..];
    assert s[i + 1..][RunLen(s[i + 1..])..] == s[i + 1 + RunLen(s[i + 1..])..];
    i := SkipRun(s, i + 1);
    assert Token(s) == Groups(s[i..]);
    ok := GroupsValid(s, i);
  }

  method GroupsValid(s: string, from: nat) returns (ok: bool)
    requires from <= |s|
    ensures ok == Groups(s[from..])
  {
    hide DigitLen;
    var i := from;
    while i < |s|
      invariant i <= |s| && Groups(s[i..]) == Groups(s[from..])
    {
      if s[i] != '.' || i + 1 >= |s| || !IsDigit(s[i + 1]) {
        return false;
      }
      var next := SkipDigits(s, i + 1);
      assert s[i..][1..] == s[i + 1..];
      assert s[i..][1 + DigitLen(s[i + 1..])..] == s[next..];
      i := next;
    }
    return true;
  }

  // ---- the longest candidate

  /** Nothing glued on: no letter or digit follows, and no dot with a digit. */
  predicate Guard(s: string, j: nat)
    requires j <= |s|
  {
    j == |s| || (!IsAlnum(s[j]) && !(s[j] == '.' && j + 1 < |s| && IsDigit(s[j + 1])))
  }

  predicate Candidate(s: string, j: nat) {
    j <= |s| && Token(s[..j]) && Guard(s, j)
  }

  /** The longest candidate of at most `j` characters. */
  function LongestUpTo(s: string, j: nat): (r: Option<nat>)
    ensures r.Some? ==> r.value <= j
  {
    if Candidate(s, j) then Some(j) else if j == 0 then None else LongestUpTo(s, j - 1)
  }

  function Longest(s: string): (r: Option<nat>)
    ensures r.Some? ==> r.value <= |s|
  {
    LongestUpTo(s, |s|)
  }

  lemma {:induction false} LongestUpToIs(s: string, j: nat, r: Option<nat>)
    ensures LongestUpTo(s, j) == r <==>
      if r.Some? then r.value <= j && Candidate(s, r.value) && forall k :: r.value < k <= j ==> !Candidate(s, k)
      else forall k :: 0 <= k <= j ==> !Candidate(s, k)
  {
    hide Candidate;
    if !Candidate(s, j) && j > 0 {
      LongestUpToIs(s, j - 1, r);
    }
  }

  /** `Longest` is the longest of all candidates, or none when there is none. */
  lemma LongestIs(s: string, r: Option<nat>)
    ensures Longest(s) == r <==>
      if r.Some? then Candidate(s, r.value) && forall k :: r.value < k ==> !Candidate(s, k)
      else forall k: nat :: !Candidate(s, k)
  {
    hide Token, Guard;
    LongestUpToIs(s, |s|, r);
  }

  /** A text's digit, or minus and digit: where a token may start. */
  predicate MayStart(s: string) {
    s != "" && (IsDigit(s[0]) || (s[0] == '-' && |s| > 1 && IsDigit(s[1])))
  }
}
