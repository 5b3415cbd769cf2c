/**
 When the call scanner stays in step with the text: a reader without parentheses that takes no interpolation stops in
 code, and such readers begin behind an `=` or behind a bare keyword only.
 */
module CallSteps {
  import opened Braces
  import opened CallCompleteness
  import opened CallSafety
  import opened CallSites
  import opened CallTexts
  import opened CodePositions
  import opened CommentLexer
  import opened Options

  const UNREAD := Reader(None, false, 0)

  /** The word at `w` is a bare keyword, and only blanks and separators lie between it and `q`. */
  predicate KeywordBefore(v: Vocabulary, source: string, bare: set<string>, w: nat, q: nat)
    requires q <= |source|
  {
    && w < q < |source| && w < IdentEnd(v, source, w) <= q
    && v.lower(source[w..IdentEnd(v, source, w)]) in bare
    && forall p :: IdentEnd(v, source, w) <= p < q ==> source[p] in " \t\n?.:->"
  }

  /** A reader without parentheses may begin at `q`: behind an `=`, or behind a bare keyword. */
  ghost predicate ReadStart(v: Vocabulary, source: string, bare: set<string>, q: nat) {
    q <= |source| && ((q > 0 && source[q - 1] == '=') || exists w: nat :: KeywordBefore(v, source, bare, w, q))
  }

  /** The arguments lie in what a reader takes that begins behind an `=` or a bare keyword. */
  ghost predicate ReadFrom(v: Vocabulary, source: string, base: nat, bare: set<string>, site: CallSite) {
    exists q: nat :: ReadStart(v, source, bare, q) && base + q <= site.from
                     && site.from + |site.args| <= base + BreakFrom(source, q, UNREAD)
  }

  /** The reader that took no interpolation and left some text stopped in code. */
  predicate Tame(site: CallSite) {
    site.end < site.limit && NoInterpolation(site.args) ==> EndsInCode(site.args, 0, None, false)
  }

  ghost predicate Ready(v: Vocabulary, source: string, base: nat, bare: set<string>, found: seq<CallSite>) {
    forall m :: 0 <= m < |found| && found[m].kind in {Bare, Assign} ==>
      Tame(found[m]) && ReadFrom(v, source, base, bare, found[m])
  }

  lemma ReadyJoin(v: Vocabulary, source: string, base: nat, bare: set<string>, f: seq<CallSite>, g: seq<CallSite>)
    requires Ready(v, source, base, bare, f) && Ready(v, source, base, bare, g)
    ensures Ready(v, source, base, bare, f + g)
  {
    hide Tame, ReadFrom;
  }

  lemma ReadyOne(v: Vocabulary, source: string, base: nat, bare: set<string>, site: CallSite)
    requires site.kind in {Bare, Assign} ==> Tame(site) && ReadFrom(v, source, base, bare, site)
    ensures Ready(v, source, base, bare, [site])
  {
    hide Tame, ReadFrom;
  }

  lemma ReadyNone(v: Vocabulary, source: string, base: nat, bare: set<string>)
    ensures Ready(v, source, base, bare, [])
  {
  }

  // ----- pieces of the text -----------------------------------------------------------------------------------

  /** A reader takes at least as much of the text as of a piece of it. */
  lemma {:induction false} BreakInPiece(source: string, p: nat, m: nat, i: nat, r: Reader)
    requires p <= i <= m <= |source|
    ensures BreakFrom(source[p..m], i - p, r) + p <= BreakFrom(source, i, r)
    decreases m - i
  {
    if i < m {
      assert source[p..m][i - p] == source[i];
      if !Breaks(r, source[i]) { BreakInPiece(source, p, m, i + 1, Read(r, source[i])); }
    }
  }

  lemma {:induction false} PartsFromPiece(v: Vocabulary, source: string, p: nat, m: nat, i: nat)
    requires p <= i <= m <= |source| && PartsEnd(v, source[p..m], i - p) < m - p
    ensures PartsEnd(v, source, i) == PartsEnd(v, source[p..m], i - p) + p
    decreases m - i
  {
    assert source[p..m][i - p] == source[i];
    if v.identPart(source[i]) { PartsFromPiece(v, source, p, m, i + 1); }
  }

  lemma StartInPiece(v: Vocabulary, source: string, p: nat, m: nat, bare: set<string>, few: set<string>, q: nat)
    requires p + q <= m <= |source| && few <= bare && ReadStart(v, source[p..m], few, q)
    ensures ReadStart(v, source, bare, p + q)
  {
    var piece := source[p..m];
    if q > 0 && piece[q - 1] == '=' {
      assert source[p + q - 1] == '=';
    } else {
      hide IdentEnd;
      var w: nat :| KeywordBefore(v, piece, few, w, q);
      KeywordInPiece(v, source, p, m, bare, few, w, q);
    }
  }

  lemma IdentFromPiece(v: Vocabulary, source: string, p: nat, m: nat, w: nat)
    requires p + w < m <= |source| && w < IdentEnd(v, source[p..m], w) < m - p
    ensures IdentEnd(v, source, p + w) == p + IdentEnd(v, source[p..m], w)
  {
    assert source[p..m][w] == source[p + w];
    PartsFromPiece(v, source, p, m, p + w + 1);
  }

  lemma KeywordInPiece(v: Vocabulary, source: string, p: nat, m: nat, bare: set<string>, few: set<string>, w: nat, q: nat)
    requires p + q <= m <= |source| && few <= bare && KeywordBefore(v, source[p..m], few, w, q)
    ensures KeywordBefore(v, source, bare, p + w, p + q)
  {
    hide IdentEnd;
    var piece := source[p..m];
    var e := IdentEnd(v, piece, w);
    IdentFromPiece(v, source, p, m, w);
    SliceOfSlice(source, p, m, p + w, p + e);
    forall k | p + e <= k < p + q ensures source[k] in " \t\n?.:->" { assert piece[k - p] == source[k]; }
  }

  lemma ReadInPiece(v: Vocabulary, source: string, base: nat, bare: set<string>, p: nat, m: nat, few: set<string>, site: CallSite)
    requires p <= m <= |source| && few <= bare && ReadFrom(v, source[p..m], base + p, few, site)
    ensures ReadFrom(v, source, base, bare, site)
  {
    hide ReadStart, BreakFrom;
    var piece := source[p..m];
    var q: nat :| ReadStart(v, piece, few, q) && base + p + q <= site.from
                  && site.from + |site.args| <= base + p + BreakFrom(piece, q, UNREAD);
    StartBound(v, piece, few, q);
    StartInPiece(v, source, p, m, bare, few, q);
    BreakInPiece(source, p, m, p + q, UNREAD);
  }

  lemma StartBound(v: Vocabulary, source: string, bare: set<string>, q: nat)
    requires ReadStart(v, source, bare, q)
    ensures q <= |source|
  {
  }

  lemma ReadyInPiece(v: Vocabulary, source: string, base: nat, bare: set<string>, p: nat, m: nat, few: set<string>,
    found: seq<CallSite>)
    requires p <= m <= |source| && few <= bare && Ready(v, source[p..m], base + p, few, found)
    ensures Ready(v, source, base, bare, found)
  {
    hide Tame, ReadFrom;
    forall k | 0 <= k < |found| && found[k].kind in {Bare, Assign}
      ensures Tame(found[k]) && ReadFrom(v, source, base, bare, found[k])
    {
      ReadInPiece(v, source, base, bare, p, m, few, found[k]);
    }
  }

  // ----- single readers -----------------------------------------------------------------------------------------

  lemma {:induction false} ChainGap(v: Vocabulary, source: string, q: string, id: string, j: nat, w: nat) returns (last: nat)
    requires w <= j <= |source| && w < IdentEnd(v, source, w) <= j && source[w..IdentEnd(v, source, w)] == id
    requires forall p :: IdentEnd(v, source, w) <= p < j ==> source[p] in " \t\n?.:->"
    ensures var name := MemberChain(v, source, q, id, j);
            && last <= |source| && last < IdentEnd(v, source, last) <= name.end && source[last..IdentEnd(v, source, last)] == name.ident
            && forall p :: IdentEnd(v, source, last) <= p < name.end ==> source[p] in " \t\n?.:->"
    decreases |source| - j
  {
    hide MemberChain, IdentEnd;
    ChainStep(v, source, q, id, j);
    var part := NextPart(v, source, j);
    PartGap(v, source, j);
    if part.Last? {
      last := w;
    } else {
      last := ChainGap(v, source, q + part.sep + part.word, part.word, part.next, part.next - |part.word|);
    }
  }

  /** What a chain reads beside its words are blanks and separators. */
  lemma PartGap(v: Vocabulary, source: string, j: nat)
    requires j <= |source|
    ensures var part := NextPart(v, source, j);
            if part.Last? then forall p :: j <= p < part.next ==> source[p] in " \t\n?.:->"
            else
              var n := part.next - |part.word|;
              n >= 0 && n < part.next && IdentEnd(v, source, n) == part.next && source[n..part.next] == part.word
  {
    hide IdentEnd;
    var r := AfterBlanks(source, j, BLANKS_AND_BREAKS);
    var sep := Separator(source, r);
    if sep.Some? {
      forall p | r <= p < r + sep.value.1 ensures source[p] in "?.:->" { assert source[p] == source[r..][p - r]; }
    }
  }

  lemma BareIsReady(v: Vocabulary, source: string, base: nat, i: nat, bare: set<string>)
    requires Usual(v) && i < |source| && v.identStart(source[i])
    requires var name := NameAt(v, source, i); v.lower(name.ident) in bare
    requires var name := NameAt(v, source, i);
             BareSite(v, source, base, name.ident, name.qualified, AfterBlanks(source, name.end, BLANKS_AND_BREAKS)).Some?
    ensures var name := NameAt(v, source, i);
            var site := BareSite(v, source, base, name.ident, name.qualified, AfterBlanks(source, name.end, BLANKS_AND_BREAKS)).value.0;
            ReadFrom(v, source, base, bare, site)
  {
    hide MemberChain, IdentEnd, BreakFrom, StripLeft, StripRight;
    var e := IdentEnd(v, source, i);
    var name := NameAt(v, source, i);
    var w := ChainGap(v, source, source[i..e], source[i..e], e, i);
    var j := AfterBlanks(source, name.end, BLANKS_AND_BREAKS);
    var q := AfterBlanks(source, j, BLANKS);
    assert KeywordBefore(v, source, bare, w, q);
    assert ReadStart(v, source, bare, q);
  }

  lemma AssignIsReady(v: Vocabulary, source: string, base: nat, bare: set<string>, name: string, qualified: string, j: nat)
    requires j < |source| && source[j] == '='
    ensures ReadFrom(v, source, base, bare, AssignSite(v, source, base, name, qualified, j).0)
  {
    hide BreakFrom, StripLeft, StripRight;
    assert ReadStart(v, source, bare, j + 1);
  }

  lemma TakenEnds(v: Vocabulary, source: string, base: nat, site: CallSite, j: nat, end: nat)
    requires TakenText(v, source, base, site, j, end)
    requires end < |source| && NoInterpolation(site.args) ==> EndsInCode(site.args, 0, None, false)
    ensures Tame(site)
  {
    hide NoInterpolation, EndsInCode;
  }

  // ----- the scan -----------------------------------------------------------------------------------------------

  lemma {:induction false} ChainIsReady(v: Vocabulary, source: string, base: nat, i: nat, qualified: string, bare: set<string>)
    requires Usual(v) && i <= |source|
    ensures Ready(v, source, base, bare, ChainSites(v, source, base, i, qualified).0)
    decreases |source|, 1, |source| - i
  {
    hide Ready, Usual, NextLink, ArgCalls, ParenText;
    match NextLink(v, source, i)
    case None => ReadyNone(v, source, base, bare);
    case Some((m, e, j)) =>
      var ident := source[m..e];
      var (site, end) := ParenSite(source, base, ident, qualified + "()." + ident, j);
      var nested := ArgCalls(v, site.args, base + j + 1, {});
      var rest := ChainSites(v, source, base, end, site.qualified).0;
      ReadyOne(v, source, base, bare, site);
      ArgsAreReady(v, source, base, j, {}, bare);
      ChainIsReady(v, source, base, end, site.qualified, bare);
      ReadyJoin(v, source, base, bare, [site], nested);
      ReadyJoin(v, source, base, bare, [site] + nested, rest);
  }

  lemma {:induction false} ArgsAreReady(v: Vocabulary, source: string, base: nat, j: nat, few: set<string>, bare: set<string>)
    requires Usual(v) && j < |source| && source[j] == '(' && few <= bare
    ensures Ready(v, source, base, bare, ArgCalls(v, ParenText(source, j).0, base + j + 1, few))
    decreases |source|, 0, 0
  {
    hide Ready, Usual, CallsOf, ParenText;
    var (args, end) := ParenText(source, j);
    ReadyNone(v, source, base, bare);
    assert args == source[j + 1..j + 1 + |args|];
    CallsAreReady(v, args, base + j + 1, few);
    ReadyInPiece(v, source, base, bare, j + 1, j + 1 + |args|, few, CallsOf(v, args, base + j + 1, few));
  }

  lemma {:induction false} CallIsReady(v: Vocabulary, source: string, base: nat, name: string, qualified: string, j: nat,
    bare: set<string>)
    requires Usual(v) && j < |source| && source[j] == '('
    ensures Ready(v, source, base, bare, CallAndChain(v, source, base, name, qualified, j, bare).0)
    decreases |source|, 1, |source| + 1
  {
    hide Ready, Usual, ArgCalls, ParenText, ChainSites;
    var (site, end) := ParenSite(source, base, name, qualified, j);
    var nested := ArgCalls(v, site.args, base + j + 1, bare);
    ReadyOne(v, source, base, bare, site);
    ArgsAreReady(v, source, base, j, bare, bare);
    ChainIsReady(v, source, base, end, qualified, bare);
    ReadyJoin(v, source, base, bare, [site], nested);
    ReadyJoin(v, source, base, bare, [site] + nested, ChainSites(v, source, base, end, qualified).0);
  }

  lemma BareBranchIs(v: Vocabulary, source: string, i: nat, bare: set<string>)
    requires i < |source| && BranchAt(v, source, i, bare) == BareBranch
    ensures v.lower(NameAt(v, source, i).ident) in bare
  {
    hide IdentEnd, AfterBlanks, MemberChain, NewSite, Declared, StartsAt, IsMember, BareSite;
  }

  lemma {:induction false} WordIsReady(v: Vocabulary, source: string, base: nat, i: nat, bare: set<string>)
    requires Usual(v) && i < |source| && v.identStart(source[i])
    ensures Ready(v, source, base, bare, WordSites(v, source, base, i, bare).0)
    decreases |source|, 2, 0
  {
    hide *;
    var e := IdentEnd(v, source, i);
    var name := NameAt(v, source, i);
    var j := AfterBlanks(source, name.end, BLANKS_AND_BREAKS);
    WordByBranch(v, source, base, i, bare);
    ReadyNone(v, source, base, bare);
    match BranchAt(v, source, i, bare)
    case NewBranch =>
      NewShape(v, source, base, e);
      ReadyOne(v, source, base, bare, NewSite(v, source, base, e).value.0);
    case CallBranch => CallIsReady(v, source, base, name.ident, name.qualified, j, bare);
    case BraceBranch =>
      BraceShape(source, base, name.ident, name.qualified, j);
      ReadyOne(v, source, base, bare, BraceSite(source, base, name.ident, name.qualified, j).0);
    case BareBranch =>
      BareBranchIs(v, source, i, bare);
      BareShape(v, source, base, name.ident, name.qualified, j);
      BareEndsInCode(v, source, base, name.ident, name.qualified, j);
      BareIsReady(v, source, base, i, bare);
      var (site, end) := BareSite(v, source, base, name.ident, name.qualified, j).value;
      TakenEnds(v, source, base, site, j, end);
      ReadyOne(v, source, base, bare, site);
    case AssignBranch =>
      AssignShape(v, source, base, name.ident, name.qualified, j);
      AssignEndsInCode(v, source, base, name.ident, name.qualified, j);
      AssignIsReady(v, source, base, bare, name.ident, name.qualified, j);
      var (site, end) := AssignSite(v, source, base, name.ident, name.qualified, j);
      TakenEnds(v, source, base, site, j, end);
      ReadyOne(v, source, base, bare, site);
    case NoBranch =>
  }

  lemma {:induction false} ScanIsReady(v: Vocabulary, source: string, base: nat, i: nat, quote: Option<char>, escape: bool,
    bare: set<string>)
    requires Usual(v) && i <= |source|
    ensures Ready(v, source, base, bare, ScanFrom(v, source, base, i, quote, escape, bare))
    decreases |source|, 3, |source| - i
  {
    hide Ready, Usual, SkipEnd, Inner, WordSites, IdentEnd, CallsOf, Interpolates;
    ReadyNone(v, source, base, bare);
    if i < |source| {
      var ch := source[i];
      if quote == Some('`') && !escape && ch != '\\' && Interpolates(source[i..]) {
        Opened(source, i);
        var end, inner := SkipEnd(source, i + 2), Inner(source, i + 2);
        CallsAreReady(v, inner, base + i + 2, bare);
        assert inner == source[i + 2..i + 2 + |inner|];
        ReadyInPiece(v, source, base, bare, i + 2, i + 2 + |inner|, bare, CallsOf(v, inner, base + i + 2, bare));
        ScanIsReady(v, source, base, end, quote, false, bare);
        ReadyJoin(v, source, base, bare, CallsOf(v, inner, base + i + 2, bare), ScanFrom(v, source, base, end, quote, false, bare));
      } else if quote.None? && ch !in QUOTES.delims && ch != '\n' && IdentEnd(v, source, i) > i {
        var (sites, next) := WordSites(v, source, base, i, bare);
        WordIsReady(v, source, base, i, bare);
        ScanIsReady(v, source, base, next, None, false, bare);
        ReadyJoin(v, source, base, bare, sites, ScanFrom(v, source, base, next, None, false, bare));
      } else {
        var left := !escape && ch != '\\' && quote == Some(ch);
        var quote' := if quote.None? then (if ch in QUOTES.delims then Some(ch) else None) else if left then None else quote;
        ScanIsReady(v, source, base, i + 1, quote', quote.Some? && !escape && ch == '\\', bare);
      }
    }
  }

  /** Only an interpolation behind an `=` or a bare keyword, before the next break, gets the scan out of step. */
  lemma {:induction false} CallsAreReady(v: Vocabulary, source: string, base: nat, bare: set<string>)
    requires Usual(v)
    ensures Ready(v, source, base, bare, CallsOf(v, source, base, bare))
    decreases |source|, 4, 0
  {
    hide Ready, Usual, ScanFrom;
    ScanIsReady(v, source, base, 0, None, false, bare);
  }

  // ----- in step, from the text alone -----------------------------------------------------------------------------

  lemma PieceHasNoInterpolation(source: string, lo: nat, hi: nat)
    requires lo <= hi <= |source| && NoInterpolation(source)
    ensures NoInterpolation(source[lo..hi])
  {
    forall p | 0 <= p < hi - lo ensures !Interpolates(source[lo..hi][p..]) {
      TextAt(source, lo, hi, lo + p);
    }
  }

  /** No interpolation opens between an `=` or a bare keyword and the break behind it. */
  ghost predicate PlainReads(v: Vocabulary, source: string, bare: set<string>) {
    forall q: nat :: ReadStart(v, source, bare, q) ==> NoInterpolation(source[q..BreakFrom(source, q, UNREAD)])
  }

  lemma ReadIsPlain(v: Vocabulary, source: string, base: nat, bare: set<string>, site: CallSite)
    requires PlainReads(v, source, bare) && Located(source, base, site) && ReadFrom(v, source, base, bare, site)
    ensures NoInterpolation(site.args)
  {
    hide ReadStart, BreakFrom, NoInterpolation;
    var q: nat :| ReadStart(v, source, bare, q) && base + q <= site.from
                  && site.from + |site.args| <= base + BreakFrom(source, q, UNREAD);
    StartBound(v, source, bare, q);
    var m := BreakFrom(source, q, UNREAD);
    var lo := site.from - base;
    PieceHasNoInterpolation(source[q..m], lo - q, lo - q + |site.args|);
    SliceOfSlice(source, q, m, lo, lo + |site.args|);
  }

  /** In a text without interpolations behind an `=` or a bare keyword the scan is in step everywhere. */
  lemma InStepOfText(v: Vocabulary, source: string, base: nat, bare: set<string>, p: int)
    requires Usual(v) && PlainReads(v, source, bare)
    ensures InStep(CallsOf(v, source, base, bare), p)
  {
    hide CallsOf, NoInterpolation, EndsInCode, Usual, PlainReads, ReadFrom;
    var found := CallsOf(v, source, base, bare);
    CallsAreGood(v, source, base, bare);
    CallsAreReady(v, source, base, bare);
    forall m | 0 <= m < |found| && found[m].kind in {Bare, Assign} && found[m].end <= p < found[m].limit
      ensures EndsInCode(found[m].args, 0, None, false)
    {
      assert Located(source, base, found[m]) && Tame(found[m]);
      ReadIsPlain(v, source, base, bare, found[m]);
    }
  }
}
