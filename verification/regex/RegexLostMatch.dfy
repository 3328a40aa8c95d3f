/** The match the empty-iteration rule loses, from the pattern's text to the search's answer. */
module RegexLostMatch {
  import opened Wrappers
  import opened RegexProgram
  import opened RegexMeaning
  import opened RegexGrammar
  import opened RegexCompiler
  import opened RegexMatcher

  const PATTERN: CString := "(^|a){2}$"

  const BRANCHES := Alt(Bol, Lit('a'))
  const TWICE := Rep(BRANCHES, 2, 2)

  /** A character no operator follows, and nothing after it in its branch. */
  lemma OneFactor(src: Source, p: nat, e: Ere)
    requires p < |src.text| && ParseAtom(src, p) == Good(e, p + 1) && Operator(src.text, p + 1) == NoInterval
    requires BoundsOk(e) && !EndsCat(At(src.text, p)) && EndsCat(At(src.text, p + 1))
    ensures ParseCat(src, None, p) == Good(e, p + 1)
  {
    hide ParseAtom, Operator;
    assert ParseRep(src, p) == Good(e, p + 1);
    assert ParseCat(src, None, p) == ParseCat(src, Some(e), p + 1);
  }

  lemma TheBranches(src: Source)
    requires src.text == PATTERN
    ensures ParseAlt(src, 1) == Good(BRANCHES, 4)
  {
    assert ParseAtom(src, 1) == Good(Bol, 2) && Operator(src.text, 2) == NoInterval;
    assert ParseAtom(src, 3) == Good(Lit('a'), 4) && Operator(src.text, 4) == NoInterval;
    hide ParseCat, ParseAtom, Operator;
    OneFactor(src, 1, Bol);
    OneFactor(src, 3, Lit('a'));
    assert ParseAltMore(src, Bol, 2) == ParseAltMore(src, BRANCHES, 4);
  }

  lemma TheGroup(src: Source)
    requires src.text == PATTERN
    ensures ParseAtom(src, 0) == Good(BRANCHES, 5)
  {
    hide ParseAlt;
    TheBranches(src);
  }

  lemma TheInterval()
    ensures Operator(PATTERN, 5) == Interval(2, 2, 8) && Operator(PATTERN, 8) == NoInterval
  {
    assert Digits(PATTERN, 6, 0) == Digits(PATTERN, 7, 2) == (2, 7);
  }

  lemma TheRepetition(src: Source)
    requires src.text == PATTERN
    ensures ParseRep(src, 0) == Good(TWICE, 8)
  {
    hide ParseAtom, Operator;
    TheGroup(src);
    TheInterval();
    assert ParseRepMore(src, BRANCHES, 5) == ParseRepMore(src, TWICE, 8) == Good(TWICE, 8);
  }

  lemma TheAnchor(src: Source)
    requires src.text == PATTERN
    ensures ParseRep(src, 8) == Good(Eol, 9)
  {
    assert ParseAtom(src, 8) == Good(Eol, 9) && Operator(src.text, 9) == NoInterval;
    hide ParseAtom, Operator;
    assert ParseRepMore(src, Eol, 9) == Good(Eol, 9);
  }

  /** The text denotes the expression whose match is lost. */
  lemma PatternParses(src: Source)
    requires src.text == PATTERN
    ensures ParsePattern(src) == Some(LINE_START_OR_A_TWICE)
  {
    hide ParseRep;
    TheRepetition(src);
    TheAnchor(src);
    assert ParseCat(src, None, 0) == ParseCat(src, Some(TWICE), 8) == ParseCat(src, Some(LINE_START_OR_A_TWICE), 9);
  }

  /** Compiled from its text, the pattern denotes the whole of the subject, and the search does not find it. */
  method SearchLosesMatch() returns (p: Option<Prog>, found: bool)
    ensures p.Some? && ProgOk(p.value) && Occurs(TreeOf(p.value), EnvOf(p.value, "a"))
    ensures TreeOf(p.value) == LINE_START_OR_A_TWICE && !found
  {
    hide ParsePattern, Matches, Cut, TreeOf, ProgOk, Steady;
    PatternParses(Source(PATTERN, false, false));
    p := Compile(PATTERN, true, false, false);
    var spent;
    found, spent := Search(p.value, "a");
    AnchoredBodyLosesMatch(EnvOf(p.value, "a"));
  }
}
