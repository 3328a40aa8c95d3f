/** The scanner against the pattern it stands in for:
    `(?<![A-Za-z0-9,.])(-?\d[\d,]*(?:\.\d+)*)(?![A-Za-z0-9]|\.\d)`. */
module NumberPattern {
  import opened Wrappers
  import opened NumberToken
  import opened NumberRewrite
  import opened NumberExpand
  import opened NumberTwice

  predicate LetterOrDigit(c: char) { 'A' <= c <= 'Z' || 'a' <= c <= 'z' || '0' <= c <= '9' }

  /** The pattern, both lookarounds included, matches the text from `i` to `j`. */
  ghost predicate MatchesAt(text: string, i: nat, j: nat) {
    && i <= j <= |text|
    && (i > 0 ==> !LetterOrDigit(text[i - 1]) && text[i - 1] != ',' && text[i - 1] != '.')
    && InPattern(text[i..j])
    && (j < |text| ==> !LetterOrDigit(text[j]))
    && (j + 1 < |text| ==> !(text[j] == '.' && '0' <= text[j + 1] <= '9'))
  }

  lemma CandidateIsMatch(text: string, i: nat, n: nat)
    requires i < |text| && (i > 0 ==> !Blocks(text[i - 1]))
    ensures Candidate(text[i..], n) <==> MatchesAt(text, i, i + n)
  {
    hide Token, InPattern;
    var s := text[i..];
    if n <= |s| {
      assert s[..n] == text[i..i + n];
      TokenIsPattern(s[..n]);
    }
  }

  lemma CandidateStarts(s: string, n: nat)
    requires Candidate(s, n)
    ensures MayStart(s)
  {
    hide Tail;
    TokenStarts(s[..n], s[n..]);
    assert s == s[..n] + s[n..];
  }

  /** Outside a command the scanner takes a token at `i` exactly when the pattern matches there,
      and then it takes the longest match. */
  lemma PieceIsLongestMatch(text: string, i: nat)
    requires i < |text| && CommandLen(text[i..]).None?
    ensures var p := Next(i > 0 && Blocks(text[i - 1]), text[i..]);
      && (p.Number? ==> MatchesAt(text, i, i + p.len) && forall j :: i + p.len < j ==> !MatchesAt(text, i, j))
      && (p.Verbatim? ==> p.len == 1 && forall j :: i <= j ==> !MatchesAt(text, i, j))
  {
    hide Candidate, MatchesAt, Longest, MayStart;
    var s := text[i..];
    var blocked := i > 0 && Blocks(text[i - 1]);
    var p := Next(blocked, s);
    if blocked {
      forall j | i <= j ensures !MatchesAt(text, i, j) { BlockedNoMatch(text, i, j); }
    } else {
      LongestIs(s, Longest(s));
      forall j: nat | i <= j ensures MatchesAt(text, i, j) <==> Candidate(s, j - i) {
        CandidateIsMatch(text, i, j - i);
      }
      if !MayStart(s) {
        forall n: nat ensures !Candidate(s, n) {
          if Candidate(s, n) { CandidateStarts(s, n); }
        }
      }
    }
  }

  lemma BlockedNoMatch(text: string, i: nat, j: nat)
    requires 0 < i <= |text| && Blocks(text[i - 1])
    ensures !MatchesAt(text, i, j)
  {
  }

  /** The text cut into pieces, each with what it becomes. */
  function Pieces(blocked: bool, s: string, style: Style): seq<(string, string)>
    decreases |s|
  {
    if s == "" then []
    else
      var p := Next(blocked, s);
      [(s[..p.len], PieceOut(s, p, style))] + Pieces(Blocks(s[p.len - 1]), s[p.len..], style)
  }

  function Sources(ps: seq<(string, string)>): string { if ps == [] then "" else ps[0].0 + Sources(ps[1..]) }
  function Outputs(ps: seq<(string, string)>): string { if ps == [] then "" else ps[0].1 + Outputs(ps[1..]) }

  /** Left as it was, or a token and what it is rewritten to. */
  ghost predicate CopiedOrRewritten(piece: (string, string), style: Style) {
    piece.1 == piece.0 ||
    (Token(piece.0) && BodyText(Unsigned(piece.0)) && Rewrite(piece.0, style) == Some(piece.1))
  }

  lemma PieceIsCopiedOrRewritten(blocked: bool, s: string, style: Style)
    requires s != ""
    ensures var p := Next(blocked, s); CopiedOrRewritten((s[..p.len], PieceOut(s, p, style)), style)
  {
    hide Next, Rewrite, Token;
    var p := Next(blocked, s);
    if p.Number? { TokenIsBody(s[..p.len]); }
  }

  ghost predicate AllCopiedOrRewritten(ps: seq<(string, string)>, style: Style) {
    forall k :: 0 <= k < |ps| ==> CopiedOrRewritten(ps[k], style)
  }

  lemma OneMore(p: (string, string), ps: seq<(string, string)>, style: Style)
    ensures Sources([p] + ps) == p.0 + Sources(ps) && Outputs([p] + ps) == p.1 + Outputs(ps)
    ensures CopiedOrRewritten(p, style) && AllCopiedOrRewritten(ps, style) ==> AllCopiedOrRewritten([p] + ps, style)
  {
    hide CopiedOrRewritten;
    assert ([p] + ps)[1..] == ps;
  }

  /** The pieces make up the text, their outputs the result, and only tokens change. */
  lemma {:induction false} OnlyTokensChange(blocked: bool, s: string, style: Style)
    ensures var ps := Pieces(blocked, s, style);
      Sources(ps) == s && Outputs(ps) == ExpandFrom(blocked, s, style) && AllCopiedOrRewritten(ps, style)
    decreases |s|
  {
    hide Next, PieceOut, Blocks, Sources, Outputs, AllCopiedOrRewritten, CopiedOrRewritten, Pieces, ExpandFrom;
    if s == "" {
      NoPieces(blocked, style);
    } else {
      var p := Next(blocked, s);
      var rest := Pieces(Blocks(s[p.len - 1]), s[p.len..], style);
      OnlyTokensChange(Blocks(s[p.len - 1]), s[p.len..], style);
      PieceIsCopiedOrRewritten(blocked, s, style);
      FirstPiece(blocked, s, style);
      OneMore((s[..p.len], PieceOut(s, p, style)), rest, style);
      assert s == s[..p.len] + s[p.len..];
    }
  }

  lemma FirstPiece(blocked: bool, s: string, style: Style)
    requires s != ""
    ensures var p := Next(blocked, s);
      && Pieces(blocked, s, style) ==
         [(s[..p.len], PieceOut(s, p, style))] + Pieces(Blocks(s[p.len - 1]), s[p.len..], style)
      && ExpandFrom(blocked, s, style) == PieceOut(s, p, style) + ExpandFrom(Blocks(s[p.len - 1]), s[p.len..], style)
  {
    hide Next, PieceOut, Blocks;
  }

  lemma NoPieces(blocked: bool, style: Style)
    ensures Pieces(blocked, "", style) == [] && ExpandFrom(blocked, "", style) == ""
    ensures Sources([]) == "" && Outputs([]) == "" && AllCopiedOrRewritten([], style)
  {
  }
}
