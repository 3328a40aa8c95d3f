/** Rewriting numbers twice changes nothing. */
module NumberTwice {
  import opened Characters
  import opened Wrappers
  import opened NumberToken
  import opened NumberRewrite
  import opened NumberShapes
  import opened NumberExpand

  // ---- a scan only looks at the body characters and the one after them

  function BodyLen(s: string): (n: nat)
    ensures n <= |s|
    ensures forall k :: 0 <= k < n ==> IsBody(s[k])
    ensures n < |s| ==> !IsBody(s[n])
  {
    if s == "" || !IsBody(s[0]) then 0 else 1 + BodyLen(s[1..])
  }

  /** The same body characters at the start, and the same character after them. */
  ghost predicate SameHead(x: string, y: string) {
    var k := BodyLen(x);
    && BodyLen(y) == k && x[..k] == y[..k]
    && (k < |x| <==> k < |y|) && (k < |x| && k < |y| ==> x[k] == y[k])
  }

  ghost predicate SameScan(x: string, y: string) {
    && x != "" && y != "" && (x[0] == '-' <==> y[0] == '-')
    && SameHead(Unsigned(x), Unsigned(y))
  }

  lemma {:induction false} BodyLenAppend(b: string, s: string)
    requires BodyText(b)
    ensures BodyLen(b + s) == |b| + BodyLen(s)
  {
    if b == "" {
      assert b + s == s;
    } else {
      BodyLenAppend(b[1..], s);
      assert (b + s)[1..] == b[1..] + s;
    }
  }

  lemma SameHeadAppend(b: string, x: string, y: string)
    requires BodyText(b) && SameHead(x, y)
    ensures SameHead(b + x, b + y)
  {
    hide BodyLen;
    BodyLenAppend(b, x);
    BodyLenAppend(b, y);
    var k := BodyLen(x);
    assert (b + x)[..|b| + k] == b + x[..k];
    assert (b + y)[..|b| + k] == b + y[..k];
  }

  lemma BodyTextFits(s: string, j: nat)
    requires j <= |s| && BodyText(s[..j])
    ensures j <= BodyLen(s)
  {
    hide BodyLen;
    forall k | 0 <= k < j ensures IsBody(s[k]) {
      assert s[..j][k] == s[k];
    }
  }

  lemma SameGuard(x: string, y: string, j: nat)
    requires SameHead(x, y) && j <= BodyLen(x)
    ensures Guard(x, j) <==> Guard(y, j)
  {
    hide BodyLen;
    var k := BodyLen(x);
    if j < k {
      assert x[j] == x[..k][j] == y[..k][j] == y[j];
      if j + 1 < k {
        assert x[j + 1] == x[..k][j + 1] == y[..k][j + 1] == y[j + 1];
      }
    }
  }

  lemma GuardShift(sign: char, s: string, j: nat)
    requires j <= |s|
    ensures Guard([sign] + s, j + 1) <==> Guard(s, j)
  {
  }

  lemma TakeUnsigned(s: string, j: nat)
    requires 0 < j <= |s|
    ensures s[0] == '-' ==> Unsigned(s[..j]) == Unsigned(s)[..j - 1]
    ensures s[0] != '-' ==> Unsigned(s[..j]) == Unsigned(s)[..j]
  {
  }

  lemma SameCandidate(x: string, y: string, j: nat)
    requires SameScan(x, y) && Candidate(x, j)
    ensures Candidate(y, j)
  {
    hide BodyLen, Tail, Guard;
    TokenIsBody(x[..j]);
    TakeUnsigned(x, j);
    var u, v := Unsigned(x), Unsigned(y);
    var o := if x[0] == '-' then 1 else 0;
    BodyTextFits(u, j - o);
    SameGuard(u, v, j - o);
    assert u[..j - o] == u[..BodyLen(u)][..j - o] == v[..BodyLen(u)][..j - o] == v[..j - o];
    if o == 1 {
      assert x == ['-'] + u && y == ['-'] + v;
      GuardShift('-', u, j - 1);
      GuardShift('-', v, j - 1);
    }
    TakeUnsigned(y, j);
  }

  lemma SameHeadSymmetric(x: string, y: string)
    requires SameScan(x, y)
    ensures SameScan(y, x)
  {
  }

  lemma SameLongest(x: string, y: string)
    requires SameScan(x, y)
    ensures Longest(x) == Longest(y)
  {
    hide Candidate, SameScan, Longest;
    SameHeadSymmetric(x, y);
    LongestIs(x, Longest(x));
    LongestIs(y, Longest(x));
    forall j: nat ensures Candidate(x, j) <==> Candidate(y, j) {
      if Candidate(x, j) { SameCandidate(x, y, j); }
      if Candidate(y, j) { SameCandidate(y, x, j); }
    }
  }

  // ---- after a token everything up to the next other character is copied

  /** Blocked text is copied at least to the end of its body characters, and one further. */
  lemma {:induction false} BlockedCopies(s: string, style: Style)
    ensures SameHead(s, ExpandFrom(true, s, style))
    decreases |s|
  {
    hide Rewritten, Longest;
    if s != "" {
      var r := ExpandFrom(true, s, style);
      var p := Next(true, s);
      assert p.Verbatim?;
      assert r[0] == s[0];
      if IsBody(s[0]) {
        assert p == Verbatim(1) && Blocks(s[0]);
        BlockedCopies(s[1..], style);
        SameHeadAppend([s[0]], s[1..], ExpandFrom(true, s[1..], style));
        assert s == [s[0]] + s[1..];
        assert s[..1] == [s[0]];
        assert r == [s[0]] + ExpandFrom(true, s[1..], style);
      }
    }
  }

  /** A digit that is copied because no token starts here blocks what follows it. */
  lemma UnmatchedCopies(s: string, style: Style)
    requires s != "" && IsDigit(s[0]) && Longest(s).None?
    ensures SameHead(s, ExpandFrom(false, s, style))
  {
    hide Rewritten, Longest, BodyLen;
    var rest := ExpandFrom(true, s[1..], style);
    assert Next(false, s) == Verbatim(1);
    assert ExpandFrom(false, s, style) == [s[0]] + rest by { assert s[..1] == [s[0]]; }
    BlockedCopies(s[1..], style);
    SameHeadAppend([s[0]], s[1..], rest);
    assert s == [s[0]] + s[1..];
  }

  lemma MinusCandidate(s: string, j: nat)
    requires |s| > 1 && s[0] == '-' && IsDigit(s[1]) && Candidate(s[1..], j)
    ensures Candidate(s, j + 1)
  {
    hide Guard, Tail;
    assert Unsigned(s[..j + 1]) == s[1..][..j];
    assert s == ['-'] + s[1..];
    GuardShift('-', s[1..], j);
  }

  /** No token after the minus, no token with it. */
  lemma UnmatchedAfterMinus(s: string)
    requires |s| > 1 && s[0] == '-' && IsDigit(s[1]) && Longest(s).None?
    ensures Longest(s[1..]).None?
  {
    hide Longest, Candidate;
    LongestIs(s, None);
    forall j: nat ensures !Candidate(s[1..], j) {
      if Candidate(s[1..], j) {
        MinusCandidate(s, j);
      }
    }
    LongestIs(s[1..], None);
  }

  /** Only a digit is copied or rewritten to something that starts with a digit there. */
  lemma FirstStaysNonDigit(blocked: bool, s: string, style: Style)
    requires s != "" && !IsDigit(s[0]) && style != Off
    ensures ExpandFrom(blocked, s, style) != "" && !IsDigit(ExpandFrom(blocked, s, style)[0])
  {
    hide Longest, Rewrite, Tail;
    var p := Next(blocked, s);
    if p.Number? {
      var tok := s[..p.len];
      TokenIsBody(tok);
      if Rewrite(tok, style).Some? {
        RewriteStart(tok, style);
      }
    }
  }

  lemma RewriteStart(tok: string, style: Style)
    requires Token(tok) && BodyText(Unsigned(tok)) && Rewrite(tok, style).Some?
    ensures Rewrite(tok, style).value != ""
    ensures !IsDigit(tok[0]) ==> !IsDigit(Rewrite(tok, style).value[0])
  {
    hide Rewrite, Group, Tail, NoCommas;
    RewriteShape(tok, style);
    var w := Rewrite(tok, style).value;
    if Plain(w) {
      assert IsPlain(w[0]);
    } else {
      GroupBody(NoCommas(Unsigned(tok)));
    }
  }

  // ---- texts a scan leaves alone

  /** Every piece is put out as it came. */
  ghost predicate Stable(blocked: bool, s: string, style: Style)
    decreases |s|
  {
    s == "" ||
    var p := Next(blocked, s);
    PieceOut(s, p, style) == s[..p.len] && Stable(Blocks(s[p.len - 1]), s[p.len..], style)
  }

  lemma {:induction false} StableIsFixed(blocked: bool, s: string, style: Style)
    requires Stable(blocked, s, style)
    ensures ExpandFrom(blocked, s, style) == s
    decreases |s|
  {
    hide PieceOut, Longest, Token;
    if s != "" {
      var p := Next(blocked, s);
      StableIsFixed(Blocks(s[p.len - 1]), s[p.len..], style);
      assert s == s[..p.len] + s[p.len..];
    }
  }

  lemma PlainNext(blocked: bool, s: string)
    requires s != "" && IsPlain(s[0])
    ensures Next(blocked, s) == Verbatim(1)
  {
    hide Longest;
  }

  /** Plain words in front of a stable text are left alone too. */
  lemma {:induction false} PlainIsStable(blocked: bool, w: string, y: string, style: Style)
    requires Plain(w) && Stable(true, y, style)
    ensures Stable(blocked, w + y, style)
    decreases |w|
  {
    hide Stable, Next;
    var s := w + y;
    PlainNext(blocked, s);
    if |w| == 1 {
      assert s[1..] == y;
    } else {
      PlainIsStable(Blocks(w[0]), w[1..], y, style);
      assert s[1..] == w[1..] + y;
    }
    StableStep(blocked, s, style);
  }

  lemma StableStep(blocked: bool, s: string, style: Style)
    requires s != "" && Next(blocked, s) == Verbatim(1) && Stable(Blocks(s[0]), s[1..], style)
    ensures Stable(blocked, s, style)
  {
    hide Next;
  }

  lemma TokenChars(s: string, j: nat)
    requires j <= |s| && Token(s[..j])
    ensures forall k :: 0 <= k < j ==> IsBody(s[k]) || s[k] == '-'
  {
    hide Token;
    var tok := s[..j];
    TokenIsBody(tok);
    forall k | 0 <= k < j ensures IsBody(s[k]) || s[k] == '-' {
      assert s[k] == tok[k];
      if tok[0] == '-' && k > 0 {
        assert tok[k] == Unsigned(tok)[k - 1];
      }
    }
  }

  /** No piece reaches past the first "]]", and a command that reaches it ends there. */
  lemma PieceBeforeClose(blocked: bool, s: string, c: nat)
    requires ClosesAt(s, c) && forall k :: 0 <= k < c ==> !ClosesAt(s, k)
    ensures Next(blocked, s).len <= c || Next(blocked, s).len == c + 2 || (c == 0 && Next(blocked, s) == Verbatim(1))
    ensures s[c + 1] == ']' && !Blocks(']')
  {
    hide Longest, Token;
    var p := Next(blocked, s);
    if p.Number? {
      TokenChars(s, p.len);
    }
  }

  lemma BracketNext(blocked: bool, s: string)
    requires s != "" && s[0] == ']'
    ensures Next(blocked, s) == Verbatim(1)
  {
    hide Longest;
  }

  /** What follows the first "]]" of a stable text is stable. */
  lemma {:induction false} StableAfterClose(blocked: bool, s: string, c: nat, style: Style)
    requires Stable(blocked, s, style) && ClosesAt(s, c) && forall k :: 0 <= k < c ==> !ClosesAt(s, k)
    ensures Stable(false, s[c + 2..], style)
    decreases |s|
  {
    hide Next, PieceOut, Blocks;
    var p := Next(blocked, s);
    PieceBeforeClose(blocked, s, c);
    var rest := s[p.len..];
    if p.len == c + 2 {
    } else if c == 0 {
      BracketNext(false, rest);
      assert rest[1..] == s[2..];
    } else {
      forall k | 0 <= k < c - p.len ensures !ClosesAt(rest, k) {
        var i := p.len + k;
        assert !ClosesAt(s, i);
      }
      StableAfterClose(Blocks(s[p.len - 1]), rest, c - p.len, style);
      assert rest[c - p.len + 2..] == s[c + 2..];
    }
  }

  // ---- a rewritten or kept token is found again

  /** A sign, a digit and a run: a token without a dot. */
  ghost predicate Simple(a: string) {
    var u := Unsigned(a);
    u != "" && IsDigit(u[0]) && forall k :: 0 <= k < |u| ==> IsRun(u[k])
  }

  /** What may follow a token without a dot does not depend on the token. */
  lemma SimpleThen(a: string, u: string)
    requires Simple(a)
    ensures Token(a + u) <==> Tail(u)
  {
    var b := Unsigned(a);
    assert Unsigned(a + u) == b + u;
    var run := b[1..];
    assert (b + u)[1..] == run + u;
    LeadingRun(run, u);
    assert (run + u)[|run| + RunLen(u)..] == u[RunLen(u)..];
  }

  lemma CandidateAfter(a: string, y: string, k: nat, d: nat)
    requires Simple(a) && d <= |y| && k == |a| + d
    ensures Candidate(a + y, k) <==> Tail(y[..d]) && Guard(y, d)
  {
    hide Tail;
    SimpleThen(a, y[..d]);
    assert (a + y)[..k] == a + y[..d];
  }

  /** Replacing a found token by another without dots, the other is found. */
  lemma SimpleFound(a: string, b: string, y: string)
    requires Simple(a) && Simple(b) && Longest(a + y) == Some(|a|)
    ensures Longest(b + y) == Some(|b|)
  {
    hide Tail, Guard, Simple, Longest, Candidate;
    LongestIs(a + y, Some(|a|));
    CandidateAfter(a, y, |a|, 0);
    CandidateAfter(b, y, |b|, 0);
    forall k: nat | |b| < k ensures !Candidate(b + y, k) {
      if k <= |b + y| {
        var d: nat := k - |b|;
        CandidateAfter(a, y, |a| + d, d);
        CandidateAfter(b, y, k, d);
      } else {
        TooLong(b + y, k);
      }
    }
    LongestIs(b + y, Some(|b|));
  }

  lemma TooLong(s: string, k: nat)
    requires k > |s|
    ensures !Candidate(s, k)
  {
  }

  // ---- one pass leaves nothing to do

  /** A token that was kept is found again in front of whatever its text became. */
  lemma KeptFound(s: string, j: nat, y: string)
    requires Longest(s) == Some(j) && j <= |s| && Token(s[..j]) && SameHead(s[j..], y)
    ensures Longest(s[..j] + y) == Some(j)
  {
    hide Longest, Token, BodyLen, SameHead;
    var tok := s[..j];
    TokenIsBody(tok);
    SameHeadAppend(Unsigned(tok), s[j..], y);
    assert s == tok + s[j..];
    assert Unsigned(tok + s[j..]) == Unsigned(tok) + s[j..];
    assert Unsigned(tok + y) == Unsigned(tok) + y;
    SameLongest(s, tok + y);
  }

  /** A text that starts with a token, found by the scan and rewritten to itself, in front of stable text. */
  lemma FoundIsStable(tok: string, y: string, style: Style)
    requires Token(tok) && Longest(tok + y) == Some(|tok|) && Rewritten(tok, style) == tok
    requires Blocks(tok[|tok| - 1]) && Stable(true, y, style)
    ensures Stable(false, tok + y, style)
  {
    hide Longest, Rewritten, Tail;
    var s := tok + y;
    assert s[..|tok|] == tok && s[|tok|..] == y;
    assert MayStart(s) by { TokenStarts(tok, y); }
    assert CommandLen(s).None?;
    assert Next(false, s) == Number(|tok|);
  }

  lemma TokenStarts(tok: string, y: string)
    requires Token(tok)
    ensures MayStart(tok + y) && tok[0] != '['
  {
    hide Tail;
  }

  lemma {:induction false} DotSurvives(s: string)
    requires '.' in s
    ensures '.' in NoCommas(s)
  {
    if s[0] != '.' {
      DotSurvives(s[1..]);
    }
  }

  /** A token whose digits are grouped has no dot. */
  lemma LongRunIsSimple(tok: string, d: string)
    requires Token(tok) && LongRun(tok, d)
    ensures Simple(tok)
  {
    hide Tail, NoCommas;
    TokenIsBody(tok);
    var u := Unsigned(tok);
    assert '.' !in d by { assert !IsDigit('.'); }
    if '.' in u {
      DotSurvives(u);
    }
    forall k | 0 <= k < |u| ensures IsRun(u[k]) {
      assert u[k] in u;
    }
  }

  lemma NumberIsStable(s: string, style: Style)
    requires style != Off && s != "" && Next(false, s).Number?
    requires Stable(true, ExpandFrom(true, s[Next(false, s).len..], style), style)
    ensures Stable(false, Rewritten(s[..Next(false, s).len], style) + ExpandFrom(true, s[Next(false, s).len..], style), style)
  {
    hide ExpandFrom, Longest, Tail, Rewrite, Stable, NoCommas, Group, SameHead, Plain, LongRun, Simple;
    var j := Next(false, s).len;
    var tok, y := s[..j], ExpandFrom(true, s[j..], style);
    assert Longest(s) == Some(j);
    BlockedCopies(s[j..], style);
    KeptFound(s, j, y);
    TokenIsBody(tok);
    if Rewrite(tok, style).None? {
      FoundIsStable(tok, y, style);
    } else {
      RewriteShape(tok, style);
      var w := Rewrite(tok, style).value;
      if Plain(w) {
        PlainIsStable(false, w, y, style);
      } else {
        GroupedIsStable(tok, y, style);
      }
    }
  }

  lemma GroupedIsStable(tok: string, y: string, style: Style)
    requires Token(tok) && style != InWords && LongRun(tok, NoCommas(Unsigned(tok)))
    requires Longest(tok + y) == Some(|tok|) && Stable(true, y, style)
    ensures Stable(false, SignOf(tok) + Group(NoCommas(Unsigned(tok))) + y, style)
  {
    hide Longest, Tail, Stable, NoCommas, Group, Rewrite;
    var d := NoCommas(Unsigned(tok));
    var w := SignOf(tok) + Group(d);
    LongRunIsSimple(tok, d);
    GroupBody(d);
    GroupedAgain(SignOf(tok), d, style);
    SimpleFound(tok, w, y);
    FoundIsStable(w, y, style);
  }

  /** A command is a command again, with the same end. */
  lemma CommandAgain(s: string, n: nat, r: string)
    requires CommandLen(s) == Some(n) && n <= |r| && s[..n] == r[..n]
    ensures CommandLen(r) == Some(n)
  {
    forall k | 0 <= k < n ensures r[k] == s[k] {
      assert r[k] == r[..n][k] == s[..n][k];
    }
    assert ClosesAt(r, n - 2);
    forall k | 2 <= k < n - 2 ensures !ClosesAt(r, k) {
      assert !ClosesAt(s, k);
    }
  }

  /** A copied character is copied again, or begins a command that ends where a piece ends. */
  lemma CopiedIsStable(blocked: bool, s: string, style: Style)
    requires style != Off && s != "" && CommandLen(s).None? && TokenAt(blocked, s).None?
    requires Stable(Blocks(s[0]), ExpandFrom(Blocks(s[0]), s[1..], style), style)
    ensures Stable(blocked, [s[0]] + ExpandFrom(Blocks(s[0]), s[1..], style), style)
  {
    hide ExpandFrom, Longest, Rewritten, SameScan, Token, TokenAt, MayStart;
    var y := ExpandFrom(Blocks(s[0]), s[1..], style);
    var r := [s[0]] + y;
    assert r[1..] == y && r[..1] == [s[0]];
    if CommandLen(r).Some? {
      NewCommandIsStable(blocked, Blocks(s[0]), r, style);
    } else {
      NoTokenAgain(blocked, s, style);
      assert Next(blocked, r) == Verbatim(1);
    }
  }

  /** A command that appears because its text became shorter is copied, and stable text follows it. */
  lemma NewCommandIsStable(blocked: bool, inner: bool, r: string, style: Style)
    requires CommandLen(r).Some? && Stable(inner, r[1..], style)
    ensures Stable(blocked, r, style)
  {
    hide Longest, Rewritten, Token, TokenAt, MayStart, CommandLen;
    var n := CommandLen(r).value;
    CloseInRest(r, n);
    StableAfterClose(inner, r[1..], n - 3, style);
    assert r[1..][n - 3 + 2..] == r[n..];
    assert Next(blocked, r) == Verbatim(n);
    assert !Blocks(r[n - 1]);
  }

  lemma CloseInRest(r: string, n: nat)
    requires CommandLen(r) == Some(n)
    ensures n >= 4 && ClosesAt(r[1..], n - 3) && forall k :: 0 <= k < n - 3 ==> !ClosesAt(r[1..], k)
  {
    forall k | 0 <= k < n - 3 ensures !ClosesAt(r[1..], k) {
      var i := k + 1;
      assert i >= 2 ==> !ClosesAt(r, i);
    }
  }

  lemma NoTokenAgain(blocked: bool, s: string, style: Style)
    requires style != Off && s != "" && CommandLen(s).None? && TokenAt(blocked, s).None?
    ensures TokenAt(blocked, [s[0]] + ExpandFrom(Blocks(s[0]), s[1..], style)).None?
  {
    hide ExpandFrom, Longest, Rewritten, SameHead, Token;
    var y := ExpandFrom(Blocks(s[0]), s[1..], style);
    var r := [s[0]] + y;
    if !blocked {
      if !MayStart(s) {
        if s[0] == '-' {
          if |s| > 1 {
            FirstStaysNonDigit(Blocks(s[0]), s[1..], style);
          } else {
            NothingExpands(Blocks(s[0]), style);
          }
        }
      } else {
        SameStart(s, style);
        SameLongest(s, r);
      }
    }
  }

  lemma NothingExpands(blocked: bool, style: Style)
    ensures ExpandFrom(blocked, "", style) == ""
  {
  }

  /** Where no token starts, the scan sees the same text after the pass as before. */
  lemma SameStart(s: string, style: Style)
    requires style != Off && MayStart(s) && Longest(s).None?
    ensures SameScan(s, [s[0]] + ExpandFrom(Blocks(s[0]), s[1..], style))
  {
    hide ExpandFrom, Longest, SameHead;
    var y := ExpandFrom(Blocks(s[0]), s[1..], style);
    if s[0] == '-' {
      UnmatchedAfterMinus(s);
      UnmatchedCopies(s[1..], style);
      assert Unsigned(['-'] + y) == y;
    } else {
      BlockedCopies(s[1..], style);
      SameHeadAppend([s[0]], s[1..], y);
      assert s == [s[0]] + s[1..];
    }
  }

  lemma NumberPiece(blocked: bool, s: string, style: Style)
    requires style != Off && s != "" && Next(blocked, s).Number?
    requires var p := Next(blocked, s);
      Stable(Blocks(s[p.len - 1]), ExpandFrom(Blocks(s[p.len - 1]), s[p.len..], style), style)
    ensures Stable(blocked, ExpandFrom(blocked, s, style), style)
  {
    hide Longest, Rewritten, Token, Tail, Stable, CommandLen;
    TokenIsBody(s[..Next(blocked, s).len]);
    NumberIsStable(s, style);
  }

  lemma CopyPiece(blocked: bool, s: string, style: Style)
    requires style != Off && s != "" && !Next(blocked, s).Number? && CommandLen(s).None?
    requires Stable(Blocks(s[0]), ExpandFrom(Blocks(s[0]), s[1..], style), style)
    ensures Stable(blocked, ExpandFrom(blocked, s, style), style)
  {
    hide Longest, Rewritten, Token, Tail, Stable, CommandLen;
    assert s[..1] == [s[0]];
    CopiedIsStable(blocked, s, style);
  }

  lemma {:induction false} ExpandIsStable(blocked: bool, s: string, style: Style)
    requires style != Off
    ensures Stable(blocked, ExpandFrom(blocked, s, style), style)
    decreases |s|
  {
    hide Longest, Rewritten, Token, Stable, CommandLen, TokenAt, ExpandFrom;
    if s == "" {
      EmptyIsStable(blocked, style);
    } else {
      var p := Next(blocked, s);
      ExpandIsStable(Blocks(s[p.len - 1]), s[p.len..], style);
      if p.Number? {
        NumberPiece(blocked, s, style);
      } else if CommandLen(s).Some? {
        CommandIsStable(blocked, s, style);
      } else {
        CopyPiece(blocked, s, style);
      }
    }
  }

  lemma EmptyIsStable(blocked: bool, style: Style)
    ensures Stable(blocked, ExpandFrom(blocked, "", style), style)
  {
  }

  lemma CommandIsStable(blocked: bool, s: string, style: Style)
    requires CommandLen(s).Some?
    requires var n := CommandLen(s).value; Stable(false, ExpandFrom(false, s[n..], style), style)
    ensures Stable(blocked, ExpandFrom(blocked, s, style), style)
  {
    hide Longest, Rewritten, Token;
    var n := CommandLen(s).value;
    var y := ExpandFrom(false, s[n..], style);
    var r := s[..n] + y;
    assert ExpandFrom(blocked, s, style) == r;
    assert r[..n] == s[..n] && r[n..] == y && r[n - 1] == s[n - 1];
    CommandAgain(s, n, r);
  }

  /** Rewriting numbers a second time changes nothing, in any text and every style. */
  lemma ExpandTwice(text: string, style: Style)
    ensures Expand(Expand(text, style), style) == Expand(text, style)
  {
    if style != Off {
      ExpandIsStable(false, text, style);
      StableIsFixed(false, ExpandFrom(false, text, style), style);
    }
  }
}
