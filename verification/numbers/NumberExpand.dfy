/** The rewriter: text piece by piece, a token rewritten, everything else copied. */
module NumberExpand {
  import opened Characters
  import opened Wrappers
  import opened NumberToken
  import opened NumberRewrite

  const COMMAND_MAX: nat := 64

  /** A character that, right before it, keeps a token from starting. */
  predicate Blocks(c: char) { IsAlnum(c) || c == ',' || c == '.' }

  predicate ClosesAt(s: string, i: nat) { i + 1 < |s| && s[i] == ']' && s[i + 1] == ']' }

  /** The first "]]" at `i` or later. */
  function FindClose(s: string, i: nat): (r: Option<nat>)
    ensures r.Some? ==> i <= r.value && ClosesAt(s, r.value) && forall k :: i <= k < r.value ==> !ClosesAt(s, k)
    ensures r.None? ==> forall k :: i <= k ==> !ClosesAt(s, k)
    decreases if |s| >= i then |s| - i else 0
  {
    if i + 1 >= |s| then None else if ClosesAt(s, i) then Some(i) else FindClose(s, i + 1)
  }

  predicate OpensCommand(s: string) { |s| > 1 && s[0] == '[' && s[1] == '[' }

  /** The length of the embedded command at the start, brackets included. */
  function CommandLen(s: string): (r: Option<nat>)
    ensures r.Some? ==> 4 <= r.value <= |s| && s[r.value - 1] == ']'
  {
    if !OpensCommand(s) then None
    else
      var close := FindClose(s, 2);
      if close.Some? && close.value - 2 <= COMMAND_MAX then Some(close.value + 2) else None
  }

  /** The next piece: copied as it is, or a number token. */
  datatype Piece = Verbatim(len: nat) | Number(len: nat)

  /** The token a scan finds at the start, when nothing before it is in the way. */
  function TokenAt(blocked: bool, s: string): (r: Option<nat>)
    ensures r.Some? ==> r.value <= |s|
  {
    if blocked || !MayStart(s) then None else Longest(s)
  }

  function Next(blocked: bool, s: string): (p: Piece)
    requires s != ""
    ensures 0 < p.len <= |s|
    ensures p.Number? ==> Token(s[..p.len])
  {
    if CommandLen(s).Some? then Verbatim(CommandLen(s).value)
    else if TokenAt(blocked, s).Some? then
      LongestIs(s, Longest(s));
      Number(TokenAt(blocked, s).value)
    else Verbatim(1)
  }

  lemma {:induction false} GroupsAreBody(s: string)
    requires Groups(s)
    ensures BodyText(s) && (s != "" ==> IsDigit(s[|s| - 1]))
    decreases |s|
  {
    if s != "" {
      var n := 1 + DigitLen(s[1..]);
      GroupsAreBody(s[n..]);
      assert forall k :: 1 <= k < n ==> s[k] == s[1..][k - 1];
      assert s == s[..n] + s[n..];
    }
  }

  /** A token's body is digits, commas and dots, and it ends in a digit or a comma. */
  lemma TokenIsBody(tok: string)
    requires Token(tok)
    ensures BodyText(Unsigned(tok)) && tok != "" && IsRun(tok[|tok| - 1])
  {
    var body := Unsigned(tok);
    var tail := body[1..];
    GroupsAreBody(tail[RunLen(tail)..]);
    LastOfBody(tok);
    hide Groups, BodyText, IsRun, IsDigit, RunLen, Tail, Unsigned;
    PartsAreBody(body[0], tail[..RunLen(tail)], tail[RunLen(tail)..]);
    assert body == [body[0]] + (tail[..RunLen(tail)] + tail[RunLen(tail)..]);
  }

  lemma LastOfBody(tok: string)
    requires Unsigned(tok) != ""
    ensures tok != "" && tok[|tok| - 1] == Unsigned(tok)[|Unsigned(tok)| - 1]
  {
  }

  lemma PartsAreBody(c: char, run: string, groups: string)
    requires IsDigit(c) && (forall k :: 0 <= k < |run| ==> IsRun(run[k]))
    requires BodyText(groups) && (groups != "" ==> IsDigit(groups[|groups| - 1]))
    ensures var body := [c] + (run + groups); BodyText(body) && IsRun(body[|body| - 1])
  {
  }

  function Rewritten(tok: string, style: Style): string
    requires Token(tok)
  {
    TokenIsBody(tok);
    var w := Rewrite(tok, style);
    if w.Some? then w.value else tok
  }

  function PieceOut(s: string, p: Piece, style: Style): string
    requires p.len <= |s| && (p.Number? ==> Token(s[..p.len]))
  {
    if p.Number? then Rewritten(s[..p.len], style) else s[..p.len]
  }

  /** Rewrite from here on; `blocked` says whether the character before stands in the way. */
  function ExpandFrom(blocked: bool, s: string, style: Style): string
    decreases |s|
  {
    if s == "" then ""
    else
      var p := Next(blocked, s);
      PieceOut(s, p, style) + ExpandFrom(Blocks(s[p.len - 1]), s[p.len..], style)
  }

  function Expand(text: string, style: Style): string {
    if style == Off then text else ExpandFrom(false, text, style)
  }
}
