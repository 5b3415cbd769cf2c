/**
 Chained calls: `.next(` behind a recorded call is recorded under the qualified name of that call, and the word before a
 name decides whether it is a declaration.
 */
module CallLinks {
  import opened CallNames
  import opened CallSafety
  import opened CallSites
  import opened CallTexts
  import opened CallCompleteness
  import opened CodePositions
  import opened CommentLexer
  import opened Braces
  import opened Options
  import opened Texts

  /** The call of `name` at `at` is recorded as chained to `prev`. */
  predicate ChainsOn(found: seq<CallSite>, prev: CallSite, at: int, name: string) {
    exists s :: s in found && s.kind == Paren && s.at == at && s.name == name && s.qualified == prev.qualified + "()." + name
  }

  /** Every link behind the end `i` of `prev`, in the text that its scan reads, is recorded. */
  ghost predicate LinksFrom(v: Vocabulary, source: string, base: nat, found: seq<CallSite>, prev: CallSite, i: nat) {
    forall dot: nat, a: nat, k: nat :: Linked(v, source, i, dot, a, k) && base + k < prev.limit ==>
      a < |source| && ChainsOn(found, prev, base + k, source[a..IdentEnd(v, source, a)])
  }

  ghost predicate LinksOn(v: Vocabulary, source: string, base: nat, found: seq<CallSite>, prev: CallSite) {
    prev.kind == Paren && base <= prev.end ==> LinksFrom(v, source, base, found, prev, prev.end - base)
  }

  ghost predicate AllLinked(v: Vocabulary, source: string, base: nat, found: seq<CallSite>, sites: seq<CallSite>) {
    forall n :: 0 <= n < |sites| ==> LinksOn(v, source, base, found, sites[n])
  }

  // ----- lists of sites ----------------------------------------------------------------------------------------

  lemma MoreLinks(v: Vocabulary, source: string, base: nat, found: seq<CallSite>, more: seq<CallSite>, sites: seq<CallSite>)
    requires AllLinked(v, source, base, found, sites) && forall s :: s in found ==> s in more
    ensures AllLinked(v, source, base, more, sites)
  {
    hide Linked, IdentEnd;
  }

  lemma LinksJoin(v: Vocabulary, source: string, base: nat, found: seq<CallSite>, f: seq<CallSite>, g: seq<CallSite>)
    requires AllLinked(v, source, base, found, f) && AllLinked(v, source, base, found, g)
    ensures AllLinked(v, source, base, found, f + g)
  {
    hide LinksOn;
  }

  lemma LinksOfOne(v: Vocabulary, source: string, base: nat, found: seq<CallSite>, site: CallSite)
    requires LinksOn(v, source, base, found, site)
    ensures AllLinked(v, source, base, found, [site])
  {
    hide LinksOn;
  }

  lemma NoLinks(v: Vocabulary, source: string, base: nat, found: seq<CallSite>)
    ensures AllLinked(v, source, base, found, [])
  {
    hide LinksOn;
  }

  lemma LinksParts(v: Vocabulary, source: string, base: nat, f: seq<CallSite>, g: seq<CallSite>)
    requires AllLinked(v, source, base, f, f) && AllLinked(v, source, base, g, g)
    ensures AllLinked(v, source, base, f + g, f + g)
  {
    hide AllLinked;
    MoreLinks(v, source, base, f, f + g, f);
    MoreLinks(v, source, base, g, f + g, g);
    LinksJoin(v, source, base, f + g, f, g);
  }

  lemma OtherLinks(v: Vocabulary, source: string, base: nat, site: CallSite)
    requires site.kind != Paren
    ensures AllLinked(v, source, base, [site], [site])
  {
    hide Linked, IdentEnd, ChainsOn;
  }

  // ----- pieces of the text --------------------------------------------------------------------------------------

  lemma LinksOfPiece(v: Vocabulary, source: string, base: nat, p: nat, m: nat, found: seq<CallSite>, site: CallSite)
    requires Usual(v) && 0 < p <= m <= |source| && LinksOn(v, source[p..m], base + p, found, site)
    requires base + p <= site.end <= site.limit <= base + m
    ensures LinksOn(v, source, base, found, site)
  {
    hide Linked, IdentEnd, Usual, ChainsOn;
    var i := site.end - base;
    if site.kind == Paren {
      assert LinksFrom(v, source[p..m], base + p, found, site, i - p);
      forall dot: nat, a: nat, k: nat | Linked(v, source, i, dot, a, k) && base + k < site.limit
        ensures a < |source| && ChainsOn(found, site, base + k, source[a..IdentEnd(v, source, a)])
      {
        LinkInPiece(v, source, p, m, i, dot, a, k);
        assert Linked(v, source[p..m], i - p, dot - p, a - p, k - p);
      }
    }
  }

  lemma LinkInPiece(v: Vocabulary, source: string, p: nat, m: nat, i: nat, dot: nat, a: nat, k: nat)
    requires p <= i && k < m <= |source| && Linked(v, source, i, dot, a, k)
    ensures i <= dot < a < k && Linked(v, source[p..m], i - p, dot - p, a - p, k - p)
    ensures source[p..m][a - p..IdentEnd(v, source[p..m], a - p)] == source[a..IdentEnd(v, source, a)]
  {
    hide *;
    LinkedBounds(v, source, i, dot, a, k);
    LinkedWord(v, source, i, dot, a, k);
    WordInPieceAt(v, source, p, m, a);
    LinkedShift(v, source, p, m, i, dot, a, k);
    IdentOfPiece(v, source, p, m, a);
    SliceOfSlice(source, p, m, a, IdentEnd(v, source, a));
  }

  lemma LinkedWord(v: Vocabulary, source: string, i: nat, dot: nat, a: nat, k: nat)
    requires Linked(v, source, i, dot, a, k)
    ensures WordAt(v, source, a)
  {
  }

  lemma LinksInPiece(v: Vocabulary, source: string, base: nat, p: nat, m: nat, sites: seq<CallSite>)
    requires Usual(v) && 0 < p <= m <= |source| && AllLinked(v, source[p..m], base + p, sites, sites)
    requires AllLocated(source[p..m], base + p, sites)
    ensures AllLinked(v, source, base, sites, sites)
  {
    hide LinksOn, Usual;
    forall n | 0 <= n < |sites| ensures LinksOn(v, source, base, sites, sites[n]) {
      assert Located(source[p..m], base + p, sites[n]);
      LinksOfPiece(v, source, base, p, m, sites, sites[n]);
    }
  }

  // ----- the scan ---------------------------------------------------------------------------------------------------

  /** What the text shows is what the chain loop reads. */
  lemma LinkedIsNext(v: Vocabulary, source: string, i: nat, dot: nat, a: nat, k: nat)
    requires Usual(v) && Linked(v, source, i, dot, a, k)
    ensures i <= |source| && a < |source| && NextLink(v, source, i) == Some((a, IdentEnd(v, source, a), k))
  {
    hide WordAt, IdentEnd, Usual, StartsAt, ChainLink, LinkBlanks, AllIn;
    LinkedBounds(v, source, i, dot, a, k);
    WordText(v, source, a);
    StartIsNoBlank(v, source[a]);
    var m := if source[dot] == '?' then dot + 2 else dot + 1;
    StartsIs(source, dot, "?.");
    StartsIs(source, dot, ".");
    assert source[dot] == source[dot..m][0];
    LinkStands(source, i, dot);
    SkipsTo(source, m, a);
    SkipsTo(source, IdentEnd(v, source, a), k);
  }

  lemma LinkStands(source: string, i: nat, dot: nat)
    requires LinkBlanks(source, i, dot) && dot < |source|
    requires StartsAt(source, dot, ".") || StartsAt(source, dot, "?.")
    ensures ChainLink(source, i) == dot
  {
    hide AfterBlanks, StartsAt, AllIn;
    StartsIs(source, dot, "?.");
    StartsIs(source, dot, ".");
    if AllIn(source, i, dot, " \t") {
      SkipsTo(source, i, dot);
    } else {
      var b: nat :| i <= b < dot && source[b] == '\n' && AllIn(source, i, b, " \t") && AllIn(source, b + 1, dot, " \t");
      SkipsTo(source, i, b);
      SkipsTo(source, b + 1, dot);
    }
  }

  /** The link behind a call is the first site of its chain. */
  lemma FirstOfChain(v: Vocabulary, source: string, base: nat, i: nat, prev: CallSite)
    requires Usual(v) && i <= |source| && prev.kind == Paren && prev.end == base + i
    ensures LinksOn(v, source, base, ChainSites(v, source, base, i, prev.qualified).0, prev)
  {
    hide *;
    var sites := ChainSites(v, source, base, i, prev.qualified).0;
    forall dot: nat, a: nat, k: nat | Linked(v, source, i, dot, a, k)
      ensures a < |source| && ChainsOn(sites, prev, base + k, source[a..IdentEnd(v, source, a)])
    {
      LinkedIsNext(v, source, i, dot, a, k);
      FirstIs(v, source, base, i, prev);
    }
    LinksOnIs(v, source, base, sites, prev, i);
  }

  lemma LinksOnIs(v: Vocabulary, source: string, base: nat, found: seq<CallSite>, prev: CallSite, i: nat)
    requires prev.end == base + i
    requires forall dot: nat, a: nat, k: nat :: Linked(v, source, i, dot, a, k) ==>
      a < |source| && ChainsOn(found, prev, base + k, source[a..IdentEnd(v, source, a)])
    ensures LinksOn(v, source, base, found, prev)
  {
    hide Linked, IdentEnd, ChainsOn;
  }

  lemma FirstIs(v: Vocabulary, source: string, base: nat, i: nat, prev: CallSite)
    requires i <= |source| && NextLink(v, source, i).Some?
    ensures var (a, e, k) := NextLink(v, source, i).value;
            ChainsOn(ChainSites(v, source, base, i, prev.qualified).0, prev, base + k, source[a..e])
  {
    hide NextLink, ArgCalls, ParenText;
    var (a, e, k) := NextLink(v, source, i).value;
    var sites := ChainSites(v, source, base, i, prev.qualified).0;
    assert sites[0].name == source[a..e] && sites[0] in sites;
  }

  lemma {:induction false} ChainIsLinked(v: Vocabulary, source: string, base: nat, i: nat, qualified: string)
    requires Usual(v) && i <= |source|
    ensures var sites := ChainSites(v, source, base, i, qualified).0; AllLinked(v, source, base, sites, sites)
    decreases |source|, 1, |source| - i
  {
    hide AllLinked, Usual, NextLink, ArgCalls, ParenSite, LinksOn;
    match NextLink(v, source, i)
    case None => NoLinks(v, source, base, []);
    case Some((m, e, j)) =>
      var ident := source[m..e];
      var (site, end) := ParenSite(source, base, ident, qualified + "()." + ident, j);
      var nested := ArgCalls(v, site.args, base + j + 1, {});
      var rest := ChainSites(v, source, base, end, site.qualified).0;
      ParenFields(source, base, ident, qualified + "()." + ident, j);
      ParenTextOf(source, base, ident, qualified + "()." + ident, j);
      ArgsAreLinked(v, source, base, j, {});
      FirstOfChain(v, source, base, end, site);
      ChainIsLinked(v, source, base, end, site.qualified);
      LinkedCall(v, source, base, site, nested, rest);
  }

  /** A call, the sites in its arguments and the sites chained to it. */
  lemma LinkedCall(v: Vocabulary, source: string, base: nat, site: CallSite, nested: seq<CallSite>, rest: seq<CallSite>)
    requires LinksOn(v, source, base, rest, site)
    requires AllLinked(v, source, base, nested, nested) && AllLinked(v, source, base, rest, rest)
    ensures AllLinked(v, source, base, [site] + nested + rest, [site] + nested + rest)
  {
    hide AllLinked, LinksOn;
    var all := [site] + nested + rest;
    LinksOfOne(v, source, base, rest, site);
    MoreLinks(v, source, base, rest, all, [site]);
    MoreLinks(v, source, base, nested, all, nested);
    MoreLinks(v, source, base, rest, all, rest);
    LinksJoin(v, source, base, all, [site], nested);
    LinksJoin(v, source, base, all, [site] + nested, rest);
  }

  lemma {:induction false} ArgsAreLinked(v: Vocabulary, source: string, base: nat, j: nat, bare: set<string>)
    requires Usual(v) && j < |source| && source[j] == '('
    ensures var nested := ArgCalls(v, ParenText(source, j).0, base + j + 1, bare); AllLinked(v, source, base, nested, nested)
    decreases |source|, 0, 0
  {
    hide AllLinked, Usual, CallsOf, ParenText, AllLocated, Distinct, Apart, Within;
    var (args, end) := ParenText(source, j);
    NoLinks(v, source, base, []);
    assert args == source[j + 1..j + 1 + |args|];
    LinksAreTaken(v, args, base + j + 1, bare);
    CallsAreGood(v, args, base + j + 1, bare);
    LinksInPiece(v, source, base, j + 1, j + 1 + |args|, CallsOf(v, args, base + j + 1, bare));
  }

  lemma {:induction false} WordIsLinked(v: Vocabulary, source: string, base: nat, i: nat, bare: set<string>)
    requires Usual(v) && i < |source| && v.identStart(source[i])
    ensures var sites := WordSites(v, source, base, i, bare).0; AllLinked(v, source, base, sites, sites)
    decreases |source|, 2, 0
  {
    hide *;
    var e := IdentEnd(v, source, i);
    var name := NameAt(v, source, i);
    var j := AfterBlanks(source, name.end, BLANKS_AND_BREAKS);
    WordByBranch(v, source, base, i, bare);
    NoLinks(v, source, base, []);
    match BranchAt(v, source, i, bare)
    case NewBranch =>
      NewShape(v, source, base, e);
      OtherLinks(v, source, base, NewSite(v, source, base, e).value.0);
    case CallBranch =>
      var (site, end) := ParenSite(source, base, name.ident, name.qualified, j);
      ParenFields(source, base, name.ident, name.qualified, j);
      ParenTextOf(source, base, name.ident, name.qualified, j);
      ArgsAreLinked(v, source, base, j, bare);
      FirstOfChain(v, source, base, end, site);
      ChainIsLinked(v, source, base, end, name.qualified);
      CallAndChainIs(v, source, base, name.ident, name.qualified, j, bare);
      LinkedCall(v, source, base, site, ArgCalls(v, site.args, base + j + 1, bare),
                 ChainSites(v, source, base, end, name.qualified).0);
    case BraceBranch =>
      BraceShape(source, base, name.ident, name.qualified, j);
      OtherLinks(v, source, base, BraceSite(source, base, name.ident, name.qualified, j).0);
    case BareBranch =>
      TakenKinds(v, source, base, name.ident, name.qualified, j);
      OtherLinks(v, source, base, BareSite(v, source, base, name.ident, name.qualified, j).value.0);
    case AssignBranch =>
      TakenKinds(v, source, base, name.ident, name.qualified, j);
      OtherLinks(v, source, base, AssignSite(v, source, base, name.ident, name.qualified, j).0);
    case NoBranch =>
  }

  lemma TakenKinds(v: Vocabulary, source: string, base: nat, name: string, qualified: string, j: nat)
    requires j <= |source|
    ensures var r := BareSite(v, source, base, name, qualified, j); r.Some? ==> r.value.0.kind != Paren
    ensures j < |source| ==> AssignSite(v, source, base, name, qualified, j).0.kind != Paren
  {
    hide AfterBlanks, BreakFrom, StripLeft, StripRight;
  }

  lemma {:induction false} ScanIsLinked(v: Vocabulary, source: string, base: nat, i: nat, quote: Option<char>, escape: bool,
    bare: set<string>)
    requires Usual(v) && i <= |source|
    ensures var sites := ScanFrom(v, source, base, i, quote, escape, bare); AllLinked(v, source, base, sites, sites)
    decreases |source|, 3, |source| - i
  {
    hide AllLinked, Usual, SkipEnd, Inner, WordSites, IdentEnd, CallsOf, Interpolates, AllLocated, Distinct, Apart, Within;
    NoLinks(v, source, base, []);
    if i < |source| {
      var ch := source[i];
      if quote == Some('`') && !escape && ch != '\\' && Interpolates(source[i..]) {
        Opened(source, i);
        var end, inner := SkipEnd(source, i + 2), Inner(source, i + 2);
        LinksAreTaken(v, inner, base + i + 2, bare);
        CallsAreGood(v, inner, base + i + 2, bare);
        assert inner == source[i + 2..i + 2 + |inner|];
        LinksInPiece(v, source, base, i + 2, i + 2 + |inner|, CallsOf(v, inner, base + i + 2, bare));
        ScanIsLinked(v, source, base, end, quote, false, bare);
        LinksParts(v, source, base, CallsOf(v, inner, base + i + 2, bare), ScanFrom(v, source, base, end, quote, false, bare));
      } else if quote.None? && ch !in QUOTES.delims && ch != '\n' && IdentEnd(v, source, i) > i {
        var (sites, next) := WordSites(v, source, base, i, bare);
        WordIsLinked(v, source, base, i, bare);
        ScanIsLinked(v, source, base, next, None, false, bare);
        LinksParts(v, source, base, sites, ScanFrom(v, source, base, next, None, false, bare));
      } else {
        var left := !escape && ch != '\\' && quote == Some(ch);
        var quote' := if quote.None? then (if ch in QUOTES.delims then Some(ch) else None) else if left then None else quote;
        ScanIsLinked(v, source, base, i + 1, quote', quote.Some? && !escape && ch == '\\', bare);
      }
    }
  }

  /** `.next(` and `?.next(` behind a recorded call are recorded under its qualified name, in every text. */
  lemma {:induction false} LinksAreTaken(v: Vocabulary, source: string, base: nat, bare: set<string>)
    requires Usual(v)
    ensures var found := CallsOf(v, source, base, bare); AllLinked(v, source, base, found, found)
    decreases |source|, 4, 0
  {
    hide AllLinked, Usual, ScanFrom;
    ScanIsLinked(v, source, base, 0, None, false, bare);
  }

  // ----- declarations -----------------------------------------------------------------------------------------------

  /** A name is declared exactly if the word before it, blanks aside, is one of the declaring keywords. */
  lemma DeclaredIff(v: Vocabulary, source: string, begin: nat, end: nat, i: nat)
    requires begin <= end <= i <= |source| && AllIn(source, end, i, " \t")
    requires forall p :: begin <= p < end ==> v.alnum(source[p]) || source[p] == '_' || source[p] == '$'
    requires begin > 0 ==> !v.alnum(source[begin - 1]) && source[begin - 1] != '_' && source[begin - 1] != '$'
    requires end > 0 ==> source[end - 1] != ' ' && source[end - 1] != '\t'
    ensures Declared(v, source, i) <==> v.lower(source[begin..end]) in v.declarations
  {
    BlanksBack(source, end, i);
    WordBack(v, source, begin, end);
  }

  lemma {:induction false} BlanksBack(source: string, end: nat, i: nat)
    requires end <= i <= |source| && AllIn(source, end, i, " \t")
    requires end > 0 ==> source[end - 1] != ' ' && source[end - 1] != '\t'
    ensures BlanksStart(source, i) == end
    decreases i
  {
    if end < i { BlanksBack(source, end, i - 1); }
  }

  lemma {:induction false} WordBack(v: Vocabulary, source: string, begin: nat, end: nat)
    requires begin <= end <= |source|
    requires forall p :: begin <= p < end ==> v.alnum(source[p]) || source[p] == '_' || source[p] == '$'
    requires begin > 0 ==> !v.alnum(source[begin - 1]) && source[begin - 1] != '_' && source[begin - 1] != '$'
    ensures WordStart(v, source, end) == begin
    decreases end
  {
    if begin < end { WordBack(v, source, begin, end - 1); }
  }

  // ----- a separator without a member ---------------------------------------------------------------------------------

  /**
   `f.(`: the call is recorded under the name `f` although no word stands directly before the parenthesis, which is why a
   chain may be followed by one more separator.
   */
  lemma StraySeparator(v: Vocabulary, bare: set<string>)
    requires Usual(v) && v.identStart('f') && v.lower("f") !in v.nonCall && v.lower("") !in v.declarations
    ensures exists s :: s in CallsOf(v, "f.(", 0, bare) && s.at == 2 && s.name == "f" && s.qualified == "f"
    ensures forall a: nat :: !CallWord(v, "f.(", a, 2)
  {
    hide *;
    var text := "f.(";
    StrayName(v, text);
    StrayBranch(v, text, bare);
    WordByBranch(v, text, 0, 0, bare);
    ParenFields(text, 0, "f", "f", 2);
    CallAndChainIs(v, text, 0, "f", "f", 2, bare);
    StrayScan(v, text, bare);
    assert ParenSite(text, 0, "f", "f", 2).0 in CallsOf(v, text, 0, bare);
    forall a: nat ensures !CallWord(v, text, a, 2) { NoCallWord(v, text, a); }
  }

  lemma StrayName(v: Vocabulary, text: string)
    requires Usual(v) && text == "f.(" && v.identStart('f')
    ensures IdentEnd(v, text, 0) == 1 && NameAt(v, text, 0) == Name("f", "f", 2)
    ensures AfterBlanks(text, 2, BLANKS_AND_BREAKS) == 2
  {
    hide Separator;
    assert '.' in MARKS && '(' in MARKS;
    SeparatorIs(text, 1, ".");
    assert !v.identStart('(') && !v.identPart('.');
    assert IdentEnd(v, text, 2) == 2;
    assert text[0..1] == "f";
  }

  lemma StrayBranch(v: Vocabulary, text: string, bare: set<string>)
    requires text == "f.(" && v.lower("f") !in v.nonCall && v.lower("") !in v.declarations
    requires IdentEnd(v, text, 0) == 1 && NameAt(v, text, 0) == Name("f", "f", 2)
    requires AfterBlanks(text, 2, BLANKS_AND_BREAKS) == 2
    ensures BranchAt(v, text, 0, bare) == CallBranch
  {
    hide IdentEnd, NameAt, AfterBlanks, NewSite, IsMember, BareSite;
    assert text[0..0] == "" && |text[0..1]| == 1;
  }

  lemma StrayScan(v: Vocabulary, text: string, bare: set<string>)
    requires text == "f.(" && IdentEnd(v, text, 0) == 1 && v.identStart('f')
    ensures forall s :: s in WordSites(v, text, 0, 0, bare).0 ==> s in CallsOf(v, text, 0, bare)
  {
    hide IdentEnd, WordSites;
    var (sites, next) := WordSites(v, text, 0, 0, bare);
    assert ScanFrom(v, text, 0, 0, None, false, bare) == sites + ScanFrom(v, text, 0, next, None, false, bare);
  }

  lemma NoCallWord(v: Vocabulary, text: string, a: nat)
    requires Usual(v) && text == "f.("
    ensures !CallWord(v, text, a, 2)
  {
    hide IdentEnd;
    assert '.' in MARKS && text[1] == '.';
    if CallWord(v, text, a, 2) { Bounded(v, text, a, 1); }
  }

  // ----- members of a declared name -------------------------------------------------------------------------------------

  const DECLARATION := "d a.b("

  /**
   A declaration of a qualified name is recorded as a call of its last part: behind the keyword `d` the head `a` is skipped
   as declared, and `b` is then read as a name of its own.
   */
  lemma DeclaredMemberIsCalled(v: Vocabulary, bare: set<string>)
    requires Usual(v) && v.identStart('d') && v.identStart('a') && v.identStart('b') && v.alnum('d')
    requires v.lower("d") in v.declarations && v.lower("") !in v.declarations
    requires v.lower("b") !in v.nonCall && v.lower("d") !in bare
    ensures HeadOf(v, DECLARATION, 2, 5) && Declared(v, DECLARATION, 2)
    ensures exists s :: s in CallsOf(v, DECLARATION, 0, bare) && s.at == 5 && s.name == "b" && s.qualified == "b"
  {
    hide *;
    var text := "d a.b(";
    DeclarationIs();
    DeclarationWords(v, text);
    DeclarationNames(v, text);
    DeclarationFacts(v, text);
    DeclarationBranches(v, text, bare);
    WordByBranch(v, text, 0, 0, bare);
    WordByBranch(v, text, 0, 2, bare);
    WordByBranch(v, text, 0, 4, bare);
    ParenFields(text, 0, "b", "b", 5);
    CallAndChainIs(v, text, 0, "b", "b", 5, bare);
    DeclarationScan(v, text, bare);
    assert ParenSite(text, 0, "b", "b", 5).0 in CallsOf(v, text, 0, bare);
  }

  lemma DeclarationIs()
    ensures DECLARATION == "d a.b("
  {
  }

  lemma DeclarationWords(v: Vocabulary, text: string)
    requires Usual(v) && text == "d a.b(" && v.identStart('d') && v.identStart('a') && v.identStart('b')
    ensures IdentEnd(v, text, 0) == 1 && IdentEnd(v, text, 1) == 1 && IdentEnd(v, text, 2) == 3
    ensures IdentEnd(v, text, 3) == 3 && IdentEnd(v, text, 4) == 5
  {
    assert ' ' in MARKS && '.' in MARKS && '(' in MARKS;
    assert !v.identStart(' ') && !v.identStart('.');
  }

  lemma DeclarationNames(v: Vocabulary, text: string)
    requires Usual(v) && text == "d a.b(" && IdentEnd(v, text, 0) == 1 && IdentEnd(v, text, 2) == 3 && IdentEnd(v, text, 4) == 5
    ensures NameAt(v, text, 0) == Name("d", "d", 2) && NameAt(v, text, 2) == Name("a.b", "b", 5)
    ensures NameAt(v, text, 4) == Name("b", "b", 5)
    ensures AfterBlanks(text, 2, BLANKS_AND_BREAKS) == 2 && AfterBlanks(text, 5, BLANKS_AND_BREAKS) == 5
  {
    hide Separator, IdentEnd, Usual;
    SeparatorIs(text, 3, ".");
    NoSeparatorAt(text, 2);
    NoSeparatorAt(text, 5);
    assert AfterBlanks(text, 1, BLANKS_AND_BREAKS) == 2;
    assert text[0..1] == "d" && text[2..3] == "a" && text[4..5] == "b" && "a" + "." + "b" == "a.b";
    assert AfterBlanks(text, 3, BLANKS_AND_BREAKS) == 3 && AfterBlanks(text, 4, BLANKS_AND_BREAKS) == 4;
    NextPartIs(v, text, 1);
    NextPartIs(v, text, 3);
    NextPartIs(v, text, 5);
    hide MemberChain, NextPart, AfterBlanks;
    NameIs(v, text, 0);
    NameIs(v, text, 2);
    NameIs(v, text, 4);
    ChainStep(v, text, "d", "d", 1);
    ChainStep(v, text, "a", "a", 3);
    ChainStep(v, text, "a.b", "b", 5);
    ChainStep(v, text, "b", "b", 5);
  }

  lemma NoSeparatorAt(source: string, j: nat)
    requires j < |source| && source[j] !in "?.:-"
    ensures Separator(source, j).None?
  {
    hide StartsAt;
    StartsIs(source, j, "?.");
    StartsIs(source, j, "::");
    StartsIs(source, j, "->");
    StartsIs(source, j, ".");
  }

  lemma DeclarationFacts(v: Vocabulary, text: string)
    requires Usual(v) && text == "d a.b(" && v.alnum('d') && v.identStart('a')
    requires v.lower("d") in v.declarations && v.lower("") !in v.declarations
    requires NameAt(v, text, 2) == Name("a.b", "b", 5) && AfterBlanks(text, 5, BLANKS_AND_BREAKS) == 5
    ensures Declared(v, text, 2) && HeadOf(v, text, 2, 5) && !Declared(v, text, 4)
  {
    assert ' ' in MARKS && '.' in MARKS && !v.identPart(' ') && !v.alnum('.');
    assert text[0..1] == "d" && text[4..4] == "";
    hide IdentEnd, NameAt, AfterBlanks, Usual, Declared;
    DeclaredIff(v, text, 0, 1, 2);
    DeclaredIff(v, text, 4, 4, 4);
  }

  lemma DeclarationBranches(v: Vocabulary, text: string, bare: set<string>)
    requires text == "d a.b(" && v.lower("b") !in v.nonCall && v.lower("d") !in bare
    requires IdentEnd(v, text, 0) == 1 && IdentEnd(v, text, 2) == 3 && IdentEnd(v, text, 4) == 5
    requires NameAt(v, text, 0) == Name("d", "d", 2) && NameAt(v, text, 2) == Name("a.b", "b", 5)
    requires NameAt(v, text, 4) == Name("b", "b", 5)
    requires AfterBlanks(text, 2, BLANKS_AND_BREAKS) == 2 && AfterBlanks(text, 5, BLANKS_AND_BREAKS) == 5
    requires Declared(v, text, 2) && !Declared(v, text, 4)
    ensures BranchAt(v, text, 0, bare) == NoBranch && BranchAt(v, text, 2, bare) == NoBranch
    ensures BranchAt(v, text, 4, bare) == CallBranch
  {
    hide IdentEnd, NameAt, AfterBlanks, NewSite, IsMember, BareSite, Declared, StartsAt, Contains, IsComparisonOrArrow;
    assert |text[0..1]| == 1 && |text[2..3]| == 1 && |text[4..5]| == 1;
    StartsIs(text, 2, "={");
  }

  lemma DeclarationScan(v: Vocabulary, text: string, bare: set<string>)
    requires text == "d a.b(" && IdentEnd(v, text, 0) == 1 && IdentEnd(v, text, 1) == 1 && IdentEnd(v, text, 2) == 3
    requires IdentEnd(v, text, 3) == 3 && IdentEnd(v, text, 4) == 5
    requires v.identStart('d') && v.identStart('a') && v.identStart('b')
    requires WordSites(v, text, 0, 0, bare) == ([], 1) && WordSites(v, text, 0, 2, bare) == ([], 3)
    ensures forall s :: s in WordSites(v, text, 0, 4, bare).0 ==> s in CallsOf(v, text, 0, bare)
  {
    hide IdentEnd, WordSites;
    var (sites, next) := WordSites(v, text, 0, 4, bare);
    assert ScanFrom(v, text, 0, 4, None, false, bare) == sites + ScanFrom(v, text, 0, next, None, false, bare);
    assert ScanFrom(v, text, 0, 3, None, false, bare) == ScanFrom(v, text, 0, 4, None, false, bare);
    assert ScanFrom(v, text, 0, 2, None, false, bare) == [] + ScanFrom(v, text, 0, 3, None, false, bare);
    assert ScanFrom(v, text, 0, 1, None, false, bare) == ScanFrom(v, text, 0, 2, None, false, bare);
    assert ScanFrom(v, text, 0, 0, None, false, bare) == [] + ScanFrom(v, text, 0, 1, None, false, bare);
  }
}
