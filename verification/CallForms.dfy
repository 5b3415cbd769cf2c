/**
 The five forms of a call at the beginning of a text, with the sites they contribute in full: where each begins and ends,
 what its arguments are, and which keywords count in them.
 */
module CallForms {
  import opened Braces
  import opened CallCompleteness
  import opened CallNames
  import opened CallLinks
  import opened CallSites
  import opened CallTexts
  import opened Comments
  import opened Options
  import opened SplitMeaning
  import opened StrippedText
  import opened Texts

  /** Neither a quote nor a bracket nor the end of a statement. */
  predicate Flat(source: string, lo: nat, hi: nat) {
    lo <= hi <= |source| && forall p :: lo <= p < hi ==> source[p] !in "\"'`([{}]);\n"
  }

  /** `source[lo..hi]` without the spaces around `source[a..b]`. */
  predicate Trimmed(v: Vocabulary, source: string, lo: nat, hi: nat, a: nat, b: nat) {
    && lo <= a < b <= hi <= |source| && !v.space(source[a]) && !v.space(source[b - 1])
    && (forall p :: lo <= p < a ==> v.space(source[p])) && (forall p :: b <= p < hi ==> v.space(source[p]))
  }

  lemma TrimsTo(v: Vocabulary, source: string, lo: nat, hi: nat, a: nat, b: nat)
    requires Trimmed(v, source, lo, hi, a, b)
    ensures lo <= a < b <= hi <= |source|
    ensures StripLeft(v, source, lo, hi) == a && StripRight(v, source, a, hi) == b
  {
    StrippedRange(v, source, lo, hi);
    StrippedRange(v, source, a, hi);
  }

  lemma {:induction false} ReadsTo(source: string, i: nat, end: nat)
    requires Flat(source, i, end) && (end == |source| || source[end] in ")]};\n")
    ensures BreakFrom(source, i, Reader(None, false, 0)) == end
    decreases end - i
  {
    ReaderMeans(0, if i < |source| then source[i] else ';');
    if i < end { ReadsTo(source, i + 1, end); }
  }

  // ----- the word at the beginning --------------------------------------------------------------------------------

  /** A word from 0 to `d`, and what it is not. */
  predicate FirstWord(v: Vocabulary, source: string, d: nat) {
    source != "" && v.identStart(source[0]) && IdentEnd(v, source, 0) == d && source[0..d] != "new"
  }

  /** The sites of the first word come first. */
  lemma FirstSites(v: Vocabulary, source: string, base: nat, bare: set<string>, d: nat)
    requires Usual(v) && FirstWord(v, source, d)
    ensures source != "" && v.identStart(source[0]) && WordSites(v, source, base, 0, bare).0 <= CallsOf(v, source, base, bare)
  {
    hide WordSites, IdentEnd, Usual;
    StartIsNoQuote(v, source[0]);
    var (sites, next) := WordSites(v, source, base, 0, bare);
    assert CallsOf(v, source, base, bare) == sites + ScanFrom(v, source, base, next, None, false, bare);
  }

  lemma StartIsNoQuote(v: Vocabulary, c: char)
    requires Usual(v) && v.identStart(c)
    ensures c !in QUOTES.delims && c != '\n'
  {
    assert c !in MARKS;
  }

  /** A word with nothing joined to it is the whole name. */
  lemma LoneName(v: Vocabulary, source: string, d: nat, j: nat)
    requires Usual(v) && FirstWord(v, source, d) && AllIn(source, d, j, " \t\n")
    requires j < |source| && source[j] !in " \t\n?.:-"
    ensures NameAt(v, source, 0) == Name(source[0..d], source[0..d], j)
    ensures AfterBlanks(source, j, BLANKS_AND_BREAKS) == j
  {
    hide IdentEnd, Usual, AllIn;
    SkipsOver(source, d, j);
    NoSeparatorAt(source, j);
    NextPartIs(v, source, d);
    ChainStep(v, source, source[0..d], source[0..d], d);
    NoBlanksToSkip(source, j);
  }

  // ----- assignments ------------------------------------------------------------------------------------------------

  /** `a.b=text`: recorded as `b`, with the trimmed right-hand side. */
  lemma AssignmentForm(v: Vocabulary, source: string, base: nat, bare: set<string>, d: nat, e: nat, end: nat, lo: nat, hi: nat)
    requires Usual(v) && FirstWord(v, source, d) && d + 1 < |source| && source[d] == '.'
    requires v.identStart(source[d + 1]) && IdentEnd(v, source, d + 1) == e && v.lower(source[d + 1..e]) !in bare
    requires e + 1 < |source| && source[e] == '=' && source[e + 1] !in "{=>" && source[e - 1] !in "!<"
    requires Flat(source, e + 1, end) && (end == |source| || source[end] in ")]};\n")
    requires Trimmed(v, source, e + 1, end, lo, hi)
    ensures [CallSite(source[d + 1..e], source[..e], Assign, base + e, base + lo, base + end, base + |source|, source[lo..hi])]
            <= CallsOf(v, source, base, bare)
  {
    hide *;
    PairName(v, source, d, e);
    FirstSites(v, source, base, bare, d);
    WordByBranch(v, source, base, 0, bare);
    PairBranch(v, source, bare, d, e);
    ReadsTo(source, e + 1, end);
    TrimsTo(v, source, e + 1, end, lo, hi);
    AssignSiteIs(v, source, base, source[d + 1..e], source[..e], e, end, lo, hi);
  }

  lemma AssignSiteIs(v: Vocabulary, source: string, base: nat, name: string, qualified: string, j: nat, end: nat, lo: nat, hi: nat)
    requires j < end <= |source| && BreakFrom(source, j + 1, Reader(None, false, 0)) == end
    requires StripLeft(v, source, j + 1, end) == lo && lo <= end && StripRight(v, source, lo, end) == hi
    ensures lo <= hi <= end
    ensures AssignSite(v, source, base, name, qualified, j) ==
            (CallSite(name, qualified, Assign, base + j, base + lo, base + end, base + |source|, source[lo..hi]), end)
  {
    hide BreakFrom, StripLeft, StripRight;
  }

  lemma PairName(v: Vocabulary, source: string, d: nat, e: nat)
    requires Usual(v) && FirstWord(v, source, d) && d + 1 < |source| && source[d] == '.'
    requires v.identStart(source[d + 1]) && IdentEnd(v, source, d + 1) == e && e < |source| && source[e] == '='
    ensures d + 1 < e && source[e - 1] != '=' && source[e - 1] != '>'
    ensures NameAt(v, source, 0) == Name(source[..e], source[d + 1..e], e) && AfterBlanks(source, e, BLANKS_AND_BREAKS) == e
  {
    hide IdentEnd, Usual, Separator;
    assert '.' in MARKS && '=' in MARKS;
    WordBehindMark(v, source, d + 1) by { hide *; DotIsNoPart(v); }
    SeparatorIs(source, d, ".");
    NoBlanksToSkip(source, d);
    NoBlanksToSkip(source, d + 1) by { hide *; StartIsNoBlank(v, source[d + 1]); }
    NoBlanksToSkip(source, e);
    NoSeparatorAt(source, e);
    NextPartIs(v, source, d);
    NextPartIs(v, source, e);
    ChainStep(v, source, source[0..d], source[0..d], d);
    ChainStep(v, source, source[0..d] + "." + source[d + 1..e], source[d + 1..e], e);
    assert source[0..d] + "." + source[d + 1..e] == source[..e];
    LastOfWord(v, source, d + 1);
  }

  lemma LastOfWord(v: Vocabulary, source: string, a: nat)
    requires Usual(v) && a < |source| && v.identStart(source[a])
    ensures var e := IdentEnd(v, source, a); a < e && source[e - 1] !in "=>("
  {
    var c := source[IdentEnd(v, source, a) - 1];
    assert v.identPart(c);
    assert '>' in MARKS && '=' in MARKS && '(' in MARKS;
  }

  lemma DotIsNoPart(v: Vocabulary)
    requires Usual(v)
    ensures !v.identPart('.')
  {
    assert '.' in MARKS;
  }

  lemma PairBranch(v: Vocabulary, source: string, bare: set<string>, d: nat, e: nat)
    requires Usual(v) && FirstWord(v, source, d) && d + 1 < e && e + 1 < |source| && source[d] == '.'
    requires NameAt(v, source, 0) == Name(source[..e], source[d + 1..e], e) && AfterBlanks(source, e, BLANKS_AND_BREAKS) == e
    requires v.lower(source[d + 1..e]) !in bare
    requires source[e] == '=' && source[e + 1] !in "{=>" && source[e - 1] !in "!<"
    requires source[e - 1] != '=' && source[e - 1] != '>'
    ensures BranchAt(v, source, 0, bare) == AssignBranch
  {
    hide IdentEnd, NameAt, AfterBlanks, NewSite, IsMember, BareSite, Usual, Declared;
    assert source[..e][d..] == "." + source[d + 1..e];
    StartsIs(source, e, "={");
    assert source[e..e + 2][1] == source[e + 1];
  }

  // ----- keywords and braces ------------------------------------------------------------------------------------------

  /** `keyword text`: recorded with the text up to the break, without the spaces at its end. */
  lemma KeywordForm(v: Vocabulary, source: string, base: nat, bare: set<string>, d: nat, j: nat, end: nat, hi: nat)
    requires Usual(v) && FirstWord(v, source, d) && v.lower(source[0..d]) in bare
    requires AllIn(source, d, j, " \t") && j < |source| && source[j] !in " \t\n?.:-=("
    requires Flat(source, j, end) && (end == |source| || source[end] in ")]};\n") && Trimmed(v, source, j, end, j, hi)
    ensures [CallSite(source[0..d], source[0..d], Bare, base + j, base + j, base + end, base + |source|, source[j..hi])]
            <= CallsOf(v, source, base, bare)
  {
    hide *;
    MoreBlanks(source, d, j);
    LoneName(v, source, d, j);
    FirstSites(v, source, base, bare, d);
    WordByBranch(v, source, base, 0, bare);
    ReadsTo(source, j, end);
    TrimsTo(v, source, j, end, j, hi);
    NoBlanksAt(source, j);
    BareSiteIs(v, source, base, source[0..d], source[0..d], j, end, hi);
    BareSiteIs(v, source, 0, source[0..d], source[0..d], j, end, hi);
    KeywordBranch(v, source, bare, d, j);
  }

  lemma NoBlanksAt(source: string, j: nat)
    requires j < |source| && source[j] !in " \t\n?.:-=("
    ensures AfterBlanks(source, j, BLANKS) == j
  {
  }

  lemma BareSiteIs(v: Vocabulary, source: string, base: nat, name: string, qualified: string, j: nat, end: nat, hi: nat)
    requires j < hi <= end <= |source| && AfterBlanks(source, j, BLANKS) == j
    requires BreakFrom(source, j, Reader(None, false, 0)) == end
    requires StripLeft(v, source, j, end) == j && StripRight(v, source, j, end) == hi
    ensures BareSite(v, source, base, name, qualified, j) ==
            Some((CallSite(name, qualified, Bare, base + j, base + j, base + end, base + |source|, source[j..hi]), end))
  {
    hide BreakFrom, StripLeft, StripRight, AfterBlanks;
  }

  lemma KeywordBranch(v: Vocabulary, source: string, bare: set<string>, d: nat, j: nat)
    requires FirstWord(v, source, d) && v.lower(source[0..d]) in bare && j < |source| && source[j] !in " \t\n?.:-=("
    requires NameAt(v, source, 0) == Name(source[0..d], source[0..d], j) && AfterBlanks(source, j, BLANKS_AND_BREAKS) == j
    requires BareSite(v, source, 0, source[0..d], source[0..d], j).Some?
    ensures BranchAt(v, source, 0, bare) == BareBranch
  {
    hide IdentEnd, NameAt, AfterBlanks, NewSite, IsMember, BareSite, Declared, Contains, StartsAt;
    StartsIs(source, j, "={");
  }

  /** `name={text}`: recorded with the text between the braces. */
  lemma BraceForm(v: Vocabulary, source: string, base: nat, bare: set<string>, d: nat, end: nat)
    requires Usual(v) && FirstWord(v, source, d) && d + 2 < end <= |source|
    requires source[d] == '=' && source[d + 1] == '{' && Flat(source, d + 2, end - 1) && source[end - 1] == '}'
    ensures [CallSite(source[0..d], source[0..d], Brace, base + d + 1, base + d + 2, base + end, base + |source|,
                      source[d + 2..end - 1])]
            <= CallsOf(v, source, base, bare)
  {
    hide *;
    NothingBetween(source, d);
    LoneName(v, source, d, d);
    FirstSites(v, source, base, bare, d);
    WordByBranch(v, source, base, 0, bare);
    BraceBranchIs(v, source, bare, d);
    SkipsTo(source, d + 2, end);
    BraceSiteIs(source, base, source[0..d], source[0..d], d, end);
  }

  lemma NothingBetween(source: string, d: nat)
    requires d <= |source|
    ensures AllIn(source, d, d, " \t\n")
  {
  }

  lemma BraceBranchIs(v: Vocabulary, source: string, bare: set<string>, d: nat)
    requires FirstWord(v, source, d) && d + 1 < |source| && source[d] == '=' && source[d + 1] == '{'
    requires NameAt(v, source, 0) == Name(source[0..d], source[0..d], d) && AfterBlanks(source, d, BLANKS_AND_BREAKS) == d
    ensures StartsAt(source, d, "={") && BranchAt(v, source, 0, bare) == BraceBranch
  {
    hide IdentEnd, NameAt, AfterBlanks, NewSite, IsMember, BareSite, Declared, Contains, StartsAt;
    StartsIs(source, d, "={");
    assert source[d..d + 2] == "={";
  }

  lemma BraceSiteIs(source: string, base: nat, name: string, qualified: string, j: nat, end: nat)
    requires StartsAt(source, j, "={") && j + 2 < end <= |source| && SkipEnd(source, j + 2) == end
    ensures BraceSite(source, base, name, qualified, j) ==
            (CallSite(name, qualified, Brace, base + j + 1, base + j + 2, base + end, base + |source|, source[j + 2..end - 1]), end)
  {
    hide SkipEnd, StartsAt;
  }

  lemma {:induction false} SkipsTo(source: string, i: nat, end: nat)
    requires i < end <= |source| && Flat(source, i, end - 1) && source[end - 1] == '}'
    ensures SkipEnd(source, i) == end
    decreases end - i
  {
    hide *;
    FlatCharacter(source, i, end);
    if i + 1 < end { SkipsTo(source, i + 1, end); }
  }

  lemma FlatCharacter(source: string, i: nat, end: nat)
    requires i < end <= |source| && Flat(source, i, end - 1) && source[end - 1] == '}'
    ensures i + 1 == end ==> SkipEnd(source, i) == end
    ensures i + 1 < end ==> Flat(source, i + 1, end - 1) && SkipEnd(source, i) == SkipEnd(source, i + 1)
  {
    hide CodeText, AtBlock, AtLine;
    var quotes := {'"', '\'', '`'};
    SkipsAsStripping(source, i);
    if i + 1 < end { SkipsAsStripping(source, i + 1); }
    NoMarkers(source[i..]);
    CodeCharacterText(source[i..], NoLineComment, None, quotes, 1);
    assert source[i..][0] == source[i] && source[i..][1..] == source[i + 1..];
  }

  lemma NoMarkers(rest: string)
    ensures !AtBlock(rest, None) && !AtLine(rest, NoLineComment)
  {
  }

  // ----- calls ------------------------------------------------------------------------------------------------------------

  /** The calls in an argument text: it is searched only if it holds a parenthesis or an `=`. */
  function Nested(v: Vocabulary, args: string, base: nat, bare: set<string>): seq<CallSite> {
    if '(' in args || '=' in args then CallsOf(v, args, base, bare) else []
  }

  /** `name(text)`: recorded with the text, followed by the calls in it; keywords count in it as they do around it. */
  lemma CallForm(v: Vocabulary, source: string, base: nat, bare: set<string>, d: nat, k: nat)
    requires Usual(v) && FirstWord(v, source, d) && v.lower(source[0..d]) !in v.nonCall && v.lower("") !in v.declarations
    requires d < k < |source| && source[d] == '(' && ClosingParen(source, d, None, false, 0) == Some(k)
    ensures [CallSite(source[0..d], source[0..d], Paren, base + d, base + d + 1, base + k + 1, base + |source|,
                      source[d + 1..k])]
            + Nested(v, source[d + 1..k], base + d + 1, bare)
            <= CallsOf(v, source, base, bare)
  {
    hide *;
    CallHead(v, source, base, bare, d, k);
  }

  lemma CallHead(v: Vocabulary, source: string, base: nat, bare: set<string>, d: nat, k: nat)
    requires Usual(v) && FirstWord(v, source, d) && v.lower(source[0..d]) !in v.nonCall && v.lower("") !in v.declarations
    requires d < k < |source| && source[d] == '(' && ClosingParen(source, d, None, false, 0) == Some(k)
    ensures [CallSite(source[0..d], source[0..d], Paren, base + d, base + d + 1, base + k + 1, base + |source|,
                      source[d + 1..k])]
            + Nested(v, source[d + 1..k], base + d + 1, bare) + ChainSites(v, source, base, k + 1, source[0..d]).0
            <= CallsOf(v, source, base, bare)
  {
    hide *;
    NothingBetween(source, d);
    LoneName(v, source, d, d);
    FirstSites(v, source, base, bare, d);
    WordByBranch(v, source, base, 0, bare);
    CallBranchAt(v, source, bare, d);
    ParenSiteIs(source, base, source[0..d], source[0..d], d, k);
    CallAndChainIs(v, source, base, source[0..d], source[0..d], d, bare);
    NestedIs(v, source[d + 1..k], base + d + 1, bare);
  }

  lemma NestedIs(v: Vocabulary, args: string, base: nat, bare: set<string>)
    ensures ArgCalls(v, args, base, bare) == Nested(v, args, base, bare)
  {
    hide CallsOf;
  }

  lemma CallBranchAt(v: Vocabulary, source: string, bare: set<string>, d: nat)
    requires FirstWord(v, source, d) && d < |source| && source[d] == '('
    requires v.lower(source[0..d]) !in v.nonCall && v.lower("") !in v.declarations
    requires NameAt(v, source, 0) == Name(source[0..d], source[0..d], d) && AfterBlanks(source, d, BLANKS_AND_BREAKS) == d
    ensures BranchAt(v, source, 0, bare) == CallBranch
  {
    hide IdentEnd, NameAt, AfterBlanks, NewSite, IsMember, BareSite, Contains, StartsAt;
    assert source[0..0] == "";
  }

  lemma ParenSiteIs(source: string, base: nat, name: string, qualified: string, j: nat, k: nat)
    requires j < |source| && source[j] == '(' && ClosingParen(source, j, None, false, 0) == Some(k) && j < k
    ensures ParenSite(source, base, name, qualified, j) ==
            (CallSite(name, qualified, Paren, base + j, base + j + 1, base + k + 1, base + |source|, source[j + 1..k]), k + 1)
  {
    hide ClosingParen;
  }

  /** `name(text).next(more)`: the chained call follows, and in its arguments no keyword counts. */
  lemma ChainForm(v: Vocabulary, source: string, base: nat, bare: set<string>, d: nat, k: nat, dot: nat, a: nat, j: nat, m: nat)
    requires Usual(v) && FirstWord(v, source, d) && v.lower(source[0..d]) !in v.nonCall && v.lower("") !in v.declarations
    requires d < k < |source| && source[d] == '(' && ClosingParen(source, d, None, false, 0) == Some(k)
    requires Linked(v, source, k + 1, dot, a, j) && j < m < |source| && ClosingParen(source, j, None, false, 0) == Some(m)
    ensures var next := source[a..IdentEnd(v, source, a)];
            [CallSite(source[0..d], source[0..d], Paren, base + d, base + d + 1, base + k + 1, base + |source|,
                      source[d + 1..k])]
            + Nested(v, source[d + 1..k], base + d + 1, bare)
            + [CallSite(next, source[0..d] + "()." + next, Paren, base + j, base + j + 1, base + m + 1, base + |source|,
                        source[j + 1..m])]
            + Nested(v, source[j + 1..m], base + j + 1, {})
            <= CallsOf(v, source, base, bare)
  {
    hide *;
    CallHead(v, source, base, bare, d, k);
    LinkedIsNext(v, source, k + 1, dot, a, j);
    LinkedBounds(v, source, k + 1, dot, a, j);
    var next := source[a..IdentEnd(v, source, a)];
    OpensAt(v, source, k + 1, dot, a, j);
    ParenSiteIs(source, base, next, source[0..d] + "()." + next, j, m);
    NestedIs(v, source[j + 1..m], base + j + 1, {});
    ChainHead(v, source, base, k + 1, source[0..d]);
  }

  lemma OpensAt(v: Vocabulary, source: string, i: nat, dot: nat, a: nat, j: nat)
    requires Linked(v, source, i, dot, a, j)
    ensures j < |source| && source[j] == '('
  {
  }

  lemma ChainHead(v: Vocabulary, source: string, base: nat, i: nat, qualified: string)
    requires i <= |source| && NextLink(v, source, i).Some?
    ensures var (a, e, j) := NextLink(v, source, i).value;
            var site := ParenSite(source, base, source[a..e], qualified + "()." + source[a..e], j).0;
            [site] + ArgCalls(v, site.args, base + j + 1, {}) <= ChainSites(v, source, base, i, qualified).0
  {
    hide NextLink, ArgCalls, ParenSite;
  }
}
