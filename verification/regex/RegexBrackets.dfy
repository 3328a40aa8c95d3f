/** What a bracket expression means: which bytes its items ask for, as relations on a byte. */
module RegexBrackets {
  import opened Characters
  import opened Wrappers
  import opened RegexProgram
  import opened RegexGrammar
  import opened RegexMeaning
  import opened RegexPrinter

  /** A member of the list between the brackets. */
  datatype Item = One(c: char) | FromTo(a: char, b: char) | Named(name: string) | Collating(kind: char, c: char)

  function Spelled(item: Item): string {
    match item
    case One(c) => [c]
    case FromTo(a, b) => [a, '-', b]
    case Named(name) => "[:" + name + ":]"
    case Collating(kind, c) => ['[', kind, c, kind, ']']
  }

  /** The classes of the C locale, by character code (section 7.4.1 of ISO/IEC 9899:1999). */
  predicate InNamed(name: string, b: int) {
    match name
    case "digit" => 48 <= b <= 57
    case "upper" => 65 <= b <= 90
    case "lower" => 97 <= b <= 122
    case "alpha" => 65 <= b <= 90 || 97 <= b <= 122
    case "alnum" => 48 <= b <= 57 || 65 <= b <= 90 || 97 <= b <= 122
    case "xdigit" => 48 <= b <= 57 || 65 <= b <= 70 || 97 <= b <= 102
    case "space" => 9 <= b <= 13 || b == 32
    case "blank" => b == 9 || b == 32
    case "cntrl" => 0 <= b <= 31 || b == 127
    case "print" => 32 <= b <= 126
    case "graph" => 33 <= b <= 126
    case "punct" => 33 <= b <= 47 || 58 <= b <= 64 || 91 <= b <= 96 || 123 <= b <= 126
    case _ => false
  }

  predicate KnownName(name: string) {
    name in ["digit", "upper", "lower", "alpha", "alnum", "xdigit", "space", "blank", "cntrl", "print", "graph", "punct"]
  }

  predicate Asks(item: Item, b: char) {
    match item
    case One(c) => b == c
    case FromTo(lo, hi) => lo <= b <= hi
    case Named(name) => InNamed(name, b as int)
    case Collating(_, c) => b == c
  }

  /** The item is what the text says at `p`: a lone character neither begins a named item nor a range,
      and a closing bracket is one only in first place. */
  predicate ItemAt(text: CString, p: nat, item: Item, first: bool) {
    && Holds(text, p, Spelled(item))
    && (p < |text| && text[p] == ']' ==> first)
    && match item
       case One(c) => !OpensItem(text, p) && !MakesRange(text, p)
       case FromTo(a, b) => a <= b && b != ']'
       case Named(name) => KnownName(name)
       case Collating(kind, c) => kind == '.' || kind == '='
  }

  predicate OpensItem(text: CString, p: nat) {
    && p + 1 < |text| && text[p] == '['
    && (text[p + 1] == ':' || text[p + 1] == '.' || text[p + 1] == '=')
  }

  predicate MakesRange(text: CString, p: nat) {
    p + 2 < |text| && text[p + 1] == '-' && text[p + 2] != ']'
  }

  /** The items one after another from `p` to `q`, where the bracket closes. */
  predicate ItemsAt(text: CString, p: nat, items: seq<Item>, first: bool, q: nat)
    decreases |items|
  {
    if items == [] then p == q && !first && q < |text| && text[q] == ']'
    else
      && ItemAt(text, p, items[0], first)
      && ItemsAt(text, p + |Spelled(items[0])|, items[1..], false, q)
  }

  predicate Asked(items: seq<Item>, b: char) {
    exists k :: 0 <= k < |items| && Asks(items[k], b)
  }

  // ----- one item

  lemma KnownIsClass(name: string)
    ensures KnownName(name) <==> name in CLASS_NAMES
  {
  }

  lemma NameIsLetters(name: string)
    requires KnownName(name)
    ensures forall k :: 0 <= k < |name| ==> 'a' <= name[k] <= 'z'
  {
  }

  lemma ClassIsNamed(name: string, b: char)
    requires KnownName(name) && b as int < 256
    ensures InClass(name, b) <==> InNamed(name, b as int)
  {
  }

  lemma NamedMembers(name: string)
    requires KnownName(name)
    ensures ClassMembers(name).Some?
    ensures forall b: char :: b as int < 256 ==> (b in ClassMembers(name).value <==> InNamed(name, b as int))
  {
    hide KnownName, InNamed, InClass;
    KnownIsClass(name);
    forall b: char | b as int < 256 ensures b in ClassMembers(name).value <==> InNamed(name, b as int) {
      ClassIsNamed(name, b);
    }
  }

  lemma {:induction false} CloseFound(text: CString, from: nat, kind: char, to: nat)
    requires from <= to && to + 1 < |text| && text[to] == kind && text[to + 1] == ']'
    requires forall k :: from <= k < to ==> text[k] != kind || text[k + 1] != ']'
    ensures FindClose(text, from, kind) == Some(to)
    decreases |text| - from
  {
    if from < to { CloseFound(text, from + 1, kind, to); }
  }

  predicate ReadAs(text: CString, p: nat, item: Item) {
    && p < |text|
    && Element(text, p).GoodSet? && Element(text, p).pos == p + |Spelled(item)|
    && forall b: char :: b as int < 256 ==> (b in Element(text, p).members <==> Asks(item, b))
  }

  lemma OneRead(text: CString, p: nat, c: char, first: bool)
    requires ItemAt(text, p, One(c), first)
    ensures ReadAs(text, p, One(c))
  {
    HoldsAt(text, p, Spelled(One(c)), 0);
  }

  lemma RangeRead(text: CString, p: nat, a: char, b: char, first: bool)
    requires ItemAt(text, p, FromTo(a, b), first)
    ensures ReadAs(text, p, FromTo(a, b))
  {
    HoldsAt(text, p, Spelled(FromTo(a, b)), 0);
    HoldsAt(text, p, Spelled(FromTo(a, b)), 1);
    HoldsAt(text, p, Spelled(FromTo(a, b)), 2);
  }

  lemma CollatingRead(text: CString, p: nat, kind: char, c: char, first: bool)
    requires ItemAt(text, p, Collating(kind, c), first)
    ensures ReadAs(text, p, Collating(kind, c))
  {
    var w := Spelled(Collating(kind, c));
    HoldsAt(text, p, w, 0);
    HoldsAt(text, p, w, 1);
    HoldsAt(text, p, w, 2);
    HoldsAt(text, p, w, 3);
    HoldsAt(text, p, w, 4);
    CloseFound(text, p + 2, kind, p + 3);
  }

  lemma NamedParts(text: CString, p: nat, name: string)
    requires Holds(text, p, Spelled(Named(name)))
    ensures var e := p + 2 + |name|;
      && e + 1 < |text| && text[p] == '[' && text[p + 1] == ':' && text[p + 2..e] == name
      && text[e] == ':' && text[e + 1] == ']'
  {
    HoldsParts(text, p, "[:" + name, ":]");
    HoldsParts(text, p, "[:", name);
    HoldsAt(text, p, "[:", 0);
    HoldsAt(text, p, "[:", 1);
    HoldsAt(text, p + 2 + |name|, ":]", 0);
    HoldsAt(text, p + 2 + |name|, ":]", 1);
  }

  lemma NamedElement(text: CString, p: nat, name: string, e: nat)
    requires p < |text| && OpensNamed(text, p) && text[p + 1] == ':' && p + 2 <= e && e + 1 < |text|
    requires FindClose(text, p + 2, ':') == Some(e) && text[p + 2..e] == name && ClassMembers(name).Some?
    ensures Element(text, p) == GoodSet(ClassMembers(name).value, e + 2)
  {
  }

  lemma NameCloses(text: CString, p: nat, name: string)
    requires KnownName(name) && p + |name| + 1 < |text| && text[p..p + |name|] == name
    requires text[p + |name|] == ':' && text[p + |name| + 1] == ']'
    ensures FindClose(text, p, ':') == Some(p + |name|)
  {
    NameIsLetters(name);
    hide KnownName;
    forall k | p <= k < p + |name| ensures text[k] != ':' {
      assert name[k - p] == text[p..p + |name|][k - p];
    }
    CloseFound(text, p, ':', p + |name|);
  }

  lemma NamedRead(text: CString, p: nat, name: string, first: bool)
    requires ItemAt(text, p, Named(name), first)
    ensures ReadAs(text, p, Named(name))
  {
    hide KnownName, InNamed, Holds, ClassMembers, FindClose, Element;
    NamedParts(text, p, name);
    NamedMembers(name);
    NameCloses(text, p + 2, name);
    NamedElement(text, p, name, p + 2 + |name|);
  }

  lemma ItemRead(text: CString, p: nat, item: Item, first: bool)
    requires ItemAt(text, p, item, first)
    ensures ReadAs(text, p, item)
  {
    hide ItemAt, ReadAs;
    match item
    case One(c) => OneRead(text, p, c, first);
    case FromTo(a, b) => RangeRead(text, p, a, b, first);
    case Named(name) => NamedRead(text, p, name, first);
    case Collating(kind, c) => CollatingRead(text, p, kind, c, first);
  }

  lemma NamedHolds(text: CString, p: nat, e: nat, name: string)
    requires p + 2 <= e && e + 1 < |text| && text[p] == '[' && text[p + 1] == ':' && text[p + 2..e] == name
    requires text[e] == ':' && text[e + 1] == ']'
    ensures Holds(text, p, Spelled(Named(name)))
  {
    var w := "[:" + name + ":]";
    forall k | 0 <= k < |w| ensures text[p + k] == w[k] {
      if 2 <= k < 2 + |name| {
        assert w[k] == name[k - 2] == text[p + 2..e][k - 2];
      }
    }
  }

  lemma NamedStands(text: CString, p: nat, name: string, first: bool)
    requires KnownName(name) && Holds(text, p, Spelled(Named(name))) && p < |text| && text[p] != ']'
    ensures ItemAt(text, p, Named(name), first)
  {
    hide KnownName, Holds;
  }

  lemma CollatingStands(text: CString, p: nat, kind: char, first: bool)
    requires p + 4 < |text| && text[p] == '[' && text[p + 1] == kind && (kind == '.' || kind == '=')
    requires text[p + 3] == kind && text[p + 4] == ']'
    ensures ItemAt(text, p, Collating(kind, text[p + 2]), first)
  {
    assert Spelled(Collating(kind, text[p + 2])) == text[p..p + 5];
  }

  lemma RangeStands(text: CString, p: nat, first: bool)
    requires !OpensNamed(text, p) && MakesRange(text, p) && text[p] <= text[p + 2] && (text[p] == ']' ==> first)
    ensures ItemAt(text, p, FromTo(text[p], text[p + 2]), first)
  {
    assert Spelled(FromTo(text[p], text[p + 2])) == text[p..p + 3];
  }

  /** Whatever is read is one of the items. */
  lemma ItemFound(text: CString, p: nat, first: bool) returns (item: Item)
    requires p < |text| && Element(text, p).GoodSet? && (text[p] == ']' ==> first)
    ensures ItemAt(text, p, item, first)
  {
    if OpensNamed(text, p) {
      var kind := text[p + 1];
      var e := FindClose(text, p + 2, kind).value;
      hide FindClose, KnownName, ItemAt;
      if kind == ':' {
        KnownIsClass(text[p + 2..e]);
        item := Named(text[p + 2..e]);
        NamedHolds(text, p, e, item.name);
        NamedStands(text, p, item.name, first);
      } else {
        CollatingStands(text, p, kind, first);
        item := Collating(kind, text[p + 2]);
      }
    } else if IsRange(text, p) {
      hide ItemAt;
      RangeStands(text, p, first);
      item := FromTo(text[p], text[p + 2]);
    } else {
      item := One(text[p]);
    }
  }

  // ----- all of them

  lemma {:induction false} ItemsRead(text: CString, p: nat, items: seq<Item>, first: bool, q: nat, work: set<char>)
    requires p <= |text| && ItemsAt(text, p, items, first, q)
    ensures var r := Members(text, work, first, p);
      && r.GoodSet? && r.pos == q
      && forall b: char :: b as int < 256 ==> (b in r.members <==> b in work || Asked(items, b))
    decreases |items|
  {
    hide ItemAt, Element, Asks, Spelled, ReadAs;
    if items != [] {
      ItemRead(text, p, items[0], first);
      ReadAsMeans(text, p, items[0], first);
      var work' := work + Element(text, p).members;
      ItemsRead(text, Element(text, p).pos, items[1..], false, q, work');
      forall b: char | b as int < 256 ensures b in work' || Asked(items[1..], b) <==> b in work || Asked(items, b) {
        AskedFirst(items, b);
      }
    }
  }

  lemma ReadAsMeans(text: CString, p: nat, item: Item, first: bool)
    requires ItemAt(text, p, item, first) && ReadAs(text, p, item)
    ensures p < |text| && Element(text, p).GoodSet? && Element(text, p).pos == p + |Spelled(item)| <= |text|
    ensures text[p] == ']' ==> first
    ensures forall b: char :: b as int < 256 ==> (b in Element(text, p).members <==> Asks(item, b))
  {
  }

  lemma AskedFirst(items: seq<Item>, b: char)
    requires items != []
    ensures Asked(items, b) <==> Asks(items[0], b) || Asked(items[1..], b)
  {
    hide Asks;
    if Asked(items[1..], b) {
      var k :| 0 <= k < |items[1..]| && Asks(items[1..][k], b);
      assert Asks(items[k + 1], b);
    }
    if k :| 0 <= k < |items| && Asks(items[k], b) && k > 0 {
      assert Asks(items[1..][k - 1], b);
    }
  }

  lemma {:induction false} ItemsFound(text: CString, p: nat, first: bool, work: set<char>) returns (items: seq<Item>)
    requires p <= |text| && Members(text, work, first, p).GoodSet?
    ensures ItemsAt(text, p, items, first, Members(text, work, first, p).pos)
    decreases |text| - p
  {
    hide ItemAt, Element, Spelled, ReadAs;
    if text[p] == ']' && !first {
      items := [];
    } else {
      var item := ItemFound(text, p, first);
      ItemRead(text, p, item, first);
      ReadAsMeans(text, p, item, first);
      var rest := ItemsFound(text, Element(text, p).pos, false, work + Element(text, p).members);
      items := [item] + rest;
    }
  }

  // ----- the whole bracket

  /** The items ask for the byte, or under REG_ICASE for the letter in its other case. */
  predicate AskedUpToCase(src: Source, items: seq<Item>, b: char) {
    Asked(items, b) || (src.icase && exists k :: 0 <= k < 26 && AskedAsOther(items, b, k))
  }

  predicate AskedAsOther(items: seq<Item>, b: char, k: int)
    requires 0 <= k < 26
  {
    || (b as int == 97 + k && Asked(items, (65 + k) as char))
    || (b as int == 65 + k && Asked(items, (97 + k) as char))
  }

  lemma FoldedMeans(src: Source, work: set<char>, items: seq<Item>, b: char)
    requires forall c: char :: c as int < 256 ==> (c in work <==> Asked(items, c))
    requires b as int < 256
    ensures b in Folded(work, src.icase) <==> AskedUpToCase(src, items, b)
  {
    hide Asked;
    if src.icase {
      if IsUpper(b) {
        var c := (b as int + 32) as char;
        assert b in Folded(work, true) <==> b in work || c in work;
        assert Asked(items, c) ==> AskedAsOther(items, b, b as int - 65);
      } else if IsLower(b) {
        var c := (b as int - 32) as char;
        assert b in Folded(work, true) <==> b in work || c in work;
        assert Asked(items, c) ==> AskedAsOther(items, b, b as int - 97);
      }
    }
  }

  predicate BracketHolds(src: Source, items: seq<Item>, negated: bool, b: char) {
    if negated then !AskedUpToCase(src, items, b) && !(src.newline && b == '\n')
    else AskedUpToCase(src, items, b)
  }

  /** After the bracket at `p`, and a circumflex if there is one, stand the items, and `q` closes them. */
  predicate BracketAt(src: Source, p: nat, items: seq<Item>, q: nat) {
    ItemsAt(src.text, if At(src.text, p + 1) == '^' then p + 2 else p + 1, items, true, q)
  }

  /** A bracket is one byte that its items ask for, or with a circumflex one that they do not. */
  lemma BracketMeans(src: Source, p: nat, items: seq<Item>, q: nat, env: Env, i: nat, j: nat)
    requires p < |src.text| && src.text[p] == '['
    requires BracketAt(src, p, items, q)
    ensures ParseAtom(src, p).Good? && ParseAtom(src, p).pos == q + 1
    ensures Matches(ParseAtom(src, p).e, env, i, j)
       <==> (j == i + 1 && i < |env.subject| && BracketHolds(src, items, At(src.text, p + 1) == '^', env.subject[i]))
  {
    hide ItemsAt, Members, Asked, AskedUpToCase, Folded;
    var negated := At(src.text, p + 1) == '^';
    var s := if negated then p + 2 else p + 1;
    ItemsRead(src.text, s, items, true, q, {});
    var work := Members(src.text, {}, true, s).members;
    if i < |env.subject| {
      FoldedMeans(src, work, items, env.subject[i]);
    }
  }

  /** And it is refused for nothing but a list of items that does not come to its end. */
  lemma BracketIffItems(src: Source, p: nat)
    requires p < |src.text| && src.text[p] == '['
    ensures ParseAtom(src, p).Good? <==> exists items, q: nat :: BracketAt(src, p, items, q)
  {
    hide ItemsAt, Members;
    var s := if At(src.text, p + 1) == '^' then p + 2 else p + 1;
    if ParseAtom(src, p).Good? {
      var items := ItemsFound(src.text, s, true, {});
      assert BracketAt(src, p, items, Members(src.text, {}, true, s).pos);
    }
    if items, q: nat :| BracketAt(src, p, items, q) {
      BracketMeans(src, p, items, q, Env(false, false, ""), 0, 0);
    }
  }
}
