/**
 What holds of the sites recorded for every text: each lies in the text, its argument text is a piece of the text,
 no position is recorded twice, across nested arguments, chains and interpolations, and none is recorded inside a text
 that another site took.
 */
module CallSafety {
  import opened Braces
  import opened CallSites
  import opened CommentLexer
  import opened Options
  import opened Texts

  /** `site` lies in `source`, which begins at `base` in the whole text, and its argument text is a piece of it. */
  predicate Located(source: string, base: nat, site: CallSite) {
    && base <= site.at < base + |source|
    && site.at <= site.from && site.from + |site.args| <= site.end <= site.limit <= base + |source|
    && site.args == source[site.from - base..site.from - base + |site.args|]
    && (site.kind in {Paren, New} ==> source[site.at - base] == '(' && site.from == site.at + 1)
    && (site.kind !in {Paren, New} ==> source[site.at - base] != '(')
  }

  predicate AllLocated(source: string, base: nat, found: seq<CallSite>) {
    forall k :: 0 <= k < |found| ==> Located(source, base, found[k])
  }

  predicate Distinct(found: seq<CallSite>) {
    forall j, k :: 0 <= j < k < |found| ==> found[j].at != found[k].at
  }

  /** No site is recorded in the text another one took. */
  predicate Apart(found: seq<CallSite>) {
    forall j, k :: 0 <= j < |found| && 0 <= k < |found| && j != k && found[k].kind != Paren ==>
      !(found[k].from <= found[j].at < found[k].end)
  }

  predicate Within(found: seq<CallSite>, lo: nat, hi: nat) {
    forall k :: 0 <= k < |found| ==> lo <= found[k].at < hi && (found[k].kind != Paren ==> found[k].end <= hi)
  }

  /** Everything promised of the sites recorded between `lo` and `hi`. */
  predicate Good(source: string, base: nat, found: seq<CallSite>, lo: nat, hi: nat) {
    AllLocated(source, base, found) && Distinct(found) && Apart(found) && Within(found, base + lo, base + hi)
  }

  lemma GoodJoin(source: string, base: nat, f: seq<CallSite>, g: seq<CallSite>, lo: nat, mid: nat, hi: nat)
    requires Good(source, base, f, lo, mid) && Good(source, base, g, mid, hi)
    requires lo <= mid <= hi
    ensures Good(source, base, f + g, lo, hi)
  {
  }

  lemma GoodWiden(source: string, base: nat, f: seq<CallSite>, lo: nat, hi: nat, lo': nat, hi': nat)
    requires Good(source, base, f, lo, hi) && lo' <= lo && hi <= hi'
    ensures Good(source, base, f, lo', hi')
  {
  }

  lemma GoodNone(source: string, base: nat, lo: nat, hi: nat)
    ensures Good(source, base, [], lo, hi)
  {
  }

  lemma GoodOne(source: string, base: nat, site: CallSite, lo: nat, hi: nat)
    requires Located(source, base, site) && base + lo <= site.at < base + hi
    requires site.kind != Paren ==> site.end <= base + hi
    ensures Good(source, base, [site], lo, hi)
  {
  }

  /** Sites found in a piece of the text are sites of the text. */
  lemma GoodInPiece(source: string, base: nat, piece: string, at: nat, g: seq<CallSite>)
    requires at + |piece| <= |source| && piece == source[at..at + |piece|]
    requires Good(piece, base + at, g, 0, |piece|)
    ensures Good(source, base, g, at, at + |piece|)
  {
    forall k | 0 <= k < |g| ensures Located(source, base, g[k]) {
      assert Located(piece, base + at, g[k]);
      var o := g[k].from - base - at;
      PieceOfPiece(source, at, piece, o, |g[k].args|);
    }
  }

  lemma PieceOfPiece(source: string, at: nat, piece: string, o: nat, n: nat)
    requires at + |piece| <= |source| && piece == source[at..at + |piece|] && o + n <= |piece|
    ensures piece[o..o + n] == source[at + o..at + o + n]
  {
    var p, q := piece[o..o + n], source[at + o..at + o + n];
    assert |p| == |q| == n;
    forall k | 0 <= k < n ensures p[k] == q[k] { assert piece[o + k] == source[at..at + |piece|][o + k]; }
  }

  // ----- single sites -----------------------------------------------------------------------------------------

  lemma ParenLocated(source: string, base: nat, name: string, qualified: string, j: nat)
    requires j < |source| && source[j] == '('
    ensures Located(source, base, ParenSite(source, base, name, qualified, j).0)
  {
    hide ParenText;
  }

  lemma BraceLocated(source: string, base: nat, name: string, qualified: string, j: nat)
    requires StartsAt(source, j, "={")
    ensures var (site, end) := BraceSite(source, base, name, qualified, j);
            Located(source, base, site) && base + j < site.at < base + end == site.end
  {
    hide SkipEnd;
    assert source[j + 1] == source[j..][1];
  }

  lemma BareLocated(v: Vocabulary, source: string, base: nat, name: string, qualified: string, j: nat)
    requires j <= |source| && (j < |source| ==> source[j] != '(')
    ensures var r := BareSite(v, source, base, name, qualified, j);
            r.Some? ==> Located(source, base, r.value.0) && base + j == r.value.0.at < base + r.value.1 == r.value.0.end
  {
    hide BreakFrom, AfterBlanks;
  }

  lemma AssignLocated(v: Vocabulary, source: string, base: nat, name: string, qualified: string, j: nat)
    requires j < |source| && source[j] == '='
    ensures var (site, end) := AssignSite(v, source, base, name, qualified, j);
            Located(source, base, site) && base + j == site.at < base + end == site.end
  {
    hide BreakFrom;
  }

  lemma NewLocated(v: Vocabulary, source: string, base: nat, i: nat)
    requires i <= |source|
    ensures var r := NewSite(v, source, base, i);
            r.Some? ==> Located(source, base, r.value.0) && base + i <= r.value.0.at < base + r.value.1 == r.value.0.end
  {
    hide AfterBlanks, IdentEnd, MemberChain, ParenSite;
    var j := AfterBlanks(source, i, BLANKS);
    var e := IdentEnd(v, source, j);
    if e != j {
      var name := MemberChain(v, source, source[j..e], source[j..e], e);
      var k := AfterBlanks(source, name.end, BLANKS);
      if k < |source| && source[k] == '(' {
        ParenLocated(source, base, name.ident, "new " + name.qualified, k);
        ParenSiteShape(source, base, name.ident, "new " + name.qualified, k);
      }
    }
  }

  lemma ParenSiteShape(source: string, base: nat, name: string, qualified: string, j: nat)
    requires j < |source| && source[j] == '('
    ensures var (site, end) := ParenSite(source, base, name, qualified, j);
            site.at == base + j && site.end == base + end && site.kind == Paren
  {
  }

  // ----- the scan ---------------------------------------------------------------------------------------------

  /** A call, the sites in its arguments and the sites after it. */
  lemma GoodCall(source: string, base: nat, site: CallSite, nested: seq<CallSite>, rest: seq<CallSite>,
    lo: nat, j: nat, end: nat, hi: nat)
    requires lo <= j && j + 1 + |site.args| <= end <= |source| && end <= hi
    requires Located(source, base, site) && site.at == base + j && site.args == source[j + 1..j + 1 + |site.args|]
    requires site.kind == Paren
    requires Good(site.args, base + j + 1, nested, 0, |site.args|)
    requires Good(source, base, rest, end, hi)
    ensures Good(source, base, [site] + nested + rest, lo, hi)
  {
    hide Good, Located;
    GoodOne(source, base, site, lo, j + 1);
    GoodInPiece(source, base, site.args, j + 1, nested);
    GoodWiden(source, base, nested, j + 1, j + 1 + |site.args|, j + 1, end);
    GoodJoin(source, base, [site], nested, lo, j + 1, end);
    GoodJoin(source, base, [site] + nested, rest, lo, end, hi);
  }

  lemma {:induction false} ChainIsGood(v: Vocabulary, source: string, base: nat, i: nat, qualified: string)
    requires i <= |source|
    ensures var (sites, next) := ChainSites(v, source, base, i, qualified); Good(source, base, sites, i, next)
    decreases |source|, 1, |source| - i
  {
    hide Good, Located, NextLink, ArgCalls, ParenSite;
    match NextLink(v, source, i)
    case None => GoodNone(source, base, i, i);
    case Some((m, e, j)) =>
      var ident := source[m..e];
      var (site, end) := ParenSite(source, base, ident, qualified + "()." + ident, j);
      ParenLocated(source, base, ident, qualified + "()." + ident, j);
      ArgsAreGood(v, site.args, base + j + 1, {});
      var (rest, next) := ChainSites(v, source, base, end, site.qualified);
      ChainIsGood(v, source, base, end, site.qualified);
      GoodCall(source, base, site, ArgCalls(v, site.args, base + j + 1, {}), rest, i, j, end, next);
  }

  lemma {:induction false} ArgsAreGood(v: Vocabulary, args: string, base: nat, bare: set<string>)
    ensures Good(args, base, ArgCalls(v, args, base, bare), 0, |args|)
    decreases |args|, 5, 0
  {
    hide Good;
    if '(' in args || '=' in args { CallsAreGood(v, args, base, bare); } else { GoodNone(args, base, 0, |args|); }
  }

  lemma {:induction false} WordIsGood(v: Vocabulary, source: string, base: nat, i: nat, bare: set<string>)
    requires i < |source| && v.identStart(source[i])
    ensures var (sites, next) := WordSites(v, source, base, i, bare); Good(source, base, sites, i, next)
    decreases |source|, 2, 0
  {
    hide Good, Located, IdentEnd, AfterBlanks, MemberChain, NewSite, Declared, ParenSite, BraceSite, BareSite, AssignSite,
      ArgCalls, ChainSites, StartsAt, Contains, IsComparisonOrArrow;
    var e := IdentEnd(v, source, i);
    GoodNone(source, base, i, e);
    NewLocated(v, source, base, e);
    var ctor := if source[i..e] == "new" then NewSite(v, source, base, e) else None;
    if ctor.Some? {
      GoodOne(source, base, ctor.value.0, i, ctor.value.1);
    } else {
      var name := MemberChain(v, source, source[i..e], source[i..e], e);
      var j := AfterBlanks(source, name.end, BLANKS_AND_BREAKS);
      if j < |source| && source[j] == '(' {
        var (site, end) := ParenSite(source, base, name.ident, name.qualified, j);
        ParenLocated(source, base, name.ident, name.qualified, j);
        ArgsAreGood(v, site.args, base + j + 1, bare);
        var (chain, next) := ChainSites(v, source, base, end, name.qualified);
        ChainIsGood(v, source, base, end, name.qualified);
        GoodCall(source, base, site, ArgCalls(v, site.args, base + j + 1, bare), chain, i, j, end, next);
      } else if StartsAt(source, j, "={") {
        var (site, end) := BraceSite(source, base, name.ident, name.qualified, j);
        BraceLocated(source, base, name.ident, name.qualified, j);
        GoodOne(source, base, site, i, end);
      } else {
        var r := BareSite(v, source, base, name.ident, name.qualified, j);
        BareLocated(v, source, base, name.ident, name.qualified, j);
        if r.Some? { GoodOne(source, base, r.value.0, i, r.value.1); }
        if j < |source| && source[j] == '=' {
          var (site, end) := AssignSite(v, source, base, name.ident, name.qualified, j);
          AssignLocated(v, source, base, name.ident, name.qualified, j);
          GoodOne(source, base, site, i, end);
        }
      }
    }
  }

  lemma {:induction false} ScanIsGood(v: Vocabulary, source: string, base: nat, i: nat, quote: Option<char>, escape: bool,
    bare: set<string>)
    requires i <= |source|
    ensures Good(source, base, ScanFrom(v, source, base, i, quote, escape, bare), i, |source|)
    decreases |source|, 3, |source| - i
  {
    hide Good, SkipEnd, WordSites, IdentEnd, Inner, CallsOf;
    if i == |source| {
      GoodNone(source, base, i, i);
    } else if quote == Some('`') && !escape && source[i] != '\\' && Interpolates(source[i..]) {
      var end := SkipEnd(source, i + 2);
      var inner := Inner(source, i + 2);
      CallsAreGood(v, inner, base + i + 2, bare);
      ScanIsGood(v, source, base, end, quote, false, bare);
      var found := CallsOf(v, inner, base + i + 2, bare);
      GoodInPiece(source, base, inner, i + 2, found);
      GoodWiden(source, base, found, i + 2, i + 2 + |inner|, i, end);
      GoodJoin(source, base, found, ScanFrom(v, source, base, end, quote, false, bare), i, end, |source|);
    } else if quote.None? && source[i] !in QUOTES.delims && source[i] != '\n' && IdentEnd(v, source, i) > i {
      WordIsGood(v, source, base, i, bare);
      var (sites, next) := WordSites(v, source, base, i, bare);
      ScanIsGood(v, source, base, next, None, false, bare);
      GoodJoin(source, base, sites, ScanFrom(v, source, base, next, None, false, bare), i, next, |source|);
    } else {
      var ch := source[i];
      var quote' := if quote.None? then (if ch in QUOTES.delims then Some(ch) else None)
                    else if !escape && ch != '\\' && quote == Some(ch) then None else quote;
      var escape' := quote.Some? && !escape && ch == '\\';
      ScanIsGood(v, source, base, i + 1, quote', escape', bare);
      GoodWiden(source, base, ScanFrom(v, source, base, i + 1, quote', escape', bare), i + 1, |source|, i, |source|);
    }
  }

  /**
   No two recorded sites share a position, in particular no parenthesis is recorded twice; every argument text is a
   piece of the source.
   */
  lemma {:induction false} CallsAreGood(v: Vocabulary, source: string, base: nat, bare: set<string>)
    ensures Good(source, base, CallsOf(v, source, base, bare), 0, |source|)
    decreases |source|, 4, 0
  {
    hide Good;
    ScanIsGood(v, source, base, 0, None, false, bare);
  }

  /** What stands in a text that was taken as it stands is not recorded. */
  lemma HiddenIsNotRecorded(v: Vocabulary, source: string, base: nat, bare: set<string>, k: nat)
    requires k < |source| && source[k] == '('
    ensures var found := CallsOf(v, source, base, bare); Hidden(found, base + k) ==> !Recorded(found, base + k)
  {
    hide CallsOf;
    var found := CallsOf(v, source, base, bare);
    CallsAreGood(v, source, base, bare);
    forall j, m | 0 <= j < |found| && found[j].at == base + k && 0 <= m < |found| && found[m].kind != Paren
      ensures !(found[m].from <= base + k < found[m].end)
    {
      assert Located(source, base, found[m]);
    }
  }
}
