/**
 Which calls the scanner finds.  `new X(...)`, `={...}`, arguments without parentheses and right-hand sides of property
 assignments are recorded as they stand and not searched.  Every other call in code of a name that is neither a keyword
 nor declared is recorded, however deeply it is nested in arguments, chains and interpolations, and nothing inside a
 string literal is.  The scan has to be in step with the text for that: the readers of the last two kinds of text know no
 interpolation, and where one stops inside a string the rest of the text that this scan reads is misread.
 */
module CallCompleteness {
  import opened Braces
  import opened CallSafety
  import opened CallSites
  import opened CallTexts
  import opened CodePositions
  import opened CommentLexer
  import opened Options
  import opened Texts

  /**
   Every reader that knows no interpolation and stops before `p`, in a text that goes on behind `p`, stops in code.
   What precedes is what the scan recorded; nothing is asked of the other kinds of site.
   */
  predicate InStep(found: seq<CallSite>, p: int) {
    forall m :: 0 <= m < |found| && found[m].kind in {Bare, Assign} && found[m].end <= p < found[m].limit ==>
      EndsInCode(found[m].args, 0, None, false)
  }

  /** The call at `k` is recorded, or the head of its name lies in a text that was recorded as it stands. */
  predicate Covered(found: seq<CallSite>, h: int, k: int) {
    Recorded(found, k) || Hidden(found, h)
  }

  lemma InStepParts(f: seq<CallSite>, g: seq<CallSite>, p: int)
    requires InStep(f + g, p)
    ensures InStep(f, p) && InStep(g, p)
  {
    forall m | 0 <= m < |g| ensures (f + g)[|f| + m] == g[m] { }
    forall m | 0 <= m < |f| ensures (f + g)[m] == f[m] { }
  }

  lemma HiddenJoin(f: seq<CallSite>, g: seq<CallSite>, p: int)
    ensures Hidden(f + g, p) <==> Hidden(f, p) || Hidden(g, p)
  {
    forall m | 0 <= m < |g| ensures (f + g)[|f| + m] == g[m] { }
    forall m | 0 <= m < |f| ensures (f + g)[m] == f[m] { }
    if Hidden(f + g, p) {
      var m :| 0 <= m < |f + g| && (f + g)[m].kind != Paren && (f + g)[m].from <= p < (f + g)[m].end;
      assert m < |f| || g[m - |f|] == (f + g)[m];
    }
  }

  lemma CoveredJoin(f: seq<CallSite>, g: seq<CallSite>, h: int, k: int)
    ensures Covered(f + g, h, k) <==> Covered(f, h, k) || Covered(g, h, k)
  {
    RecordedJoin(f, g, k);
    HiddenJoin(f, g, h);
  }

  lemma HiddenOne(site: CallSite, p: int)
    ensures Hidden([site], p) <==> site.kind != Paren && site.from <= p < site.end
  {
    assert [site][0] == site;
  }

  /** A call with its arguments and what is chained to it. */
  lemma CallJoin(site: CallSite, nested: seq<CallSite>, rest: seq<CallSite>, h: int, k: int)
    requires site.kind == Paren
    ensures InStep([site] + nested + rest, h) ==> InStep(nested, h) && InStep(rest, h)
    ensures Recorded([site] + nested + rest, k) <==> site.at == k || Recorded(nested, k) || Recorded(rest, k)
    ensures Hidden([site] + nested + rest, h) <==> Hidden(nested, h) || Hidden(rest, h)
  {
    hide *;
    RecordedOne(site, k);
    RecordedJoin([site], nested, k);
    RecordedJoin([site] + nested, rest, k);
    HiddenOne(site, h);
    HiddenJoin([site], nested, h);
    HiddenJoin([site] + nested, rest, h);
    if InStep([site] + nested + rest, h) {
      InStepParts([site] + nested, rest, h);
      InStepParts([site], nested, h);
    }
  }

  lemma RecordedJoin(f: seq<CallSite>, g: seq<CallSite>, at: int)
    ensures Recorded(f + g, at) <==> Recorded(f, at) || Recorded(g, at)
  {
    if Recorded(f, at) {
      var m :| 0 <= m < |f| && f[m].at == at;
      assert (f + g)[m].at == at;
    }
    if Recorded(g, at) {
      var m :| 0 <= m < |g| && g[m].at == at;
      assert (f + g)[|f| + m].at == at;
    }
    if Recorded(f + g, at) {
      var m :| 0 <= m < |f + g| && (f + g)[m].at == at;
      assert m < |f| || g[m - |f|].at == at;
    }
  }

  lemma RecordedOne(site: CallSite, at: int)
    ensures Recorded([site], at) <==> site.at == at
  {
    assert [site][0] == site;
  }

  lemma RecordedNone(at: int)
    ensures !Recorded([], at)
  {
  }

  // ----- every call is found ------------------------------------------------------------------------------------

  /** A wanted name behind the parenthesis at `j` is covered by the arguments' sites, or begins behind them. */
  lemma {:induction false} FoundInParens(v: Vocabulary, source: string, base: nat, j: nat, bare: set<string>, h: nat, k: nat)
    requires Usual(v) && j < |source| && source[j] == '(' && j < h
    requires Wanted(v, source, h, k) && InCode(source, j, None, false, k)
    requires InStep(ArgCalls(v, ParenText(source, j).0, base + j + 1, bare), base + h)
    ensures var (args, end) := ParenText(source, j);
            Covered(ArgCalls(v, args, base + j + 1, bare), base + h, base + k)
            || (end <= h && InCode(source, end, None, false, k))
    decreases |source|, 0, 0
  {
    hide InCode, ParenText, Covered, InStep, Wanted, Usual, CallsOf, NameText;
    var (args, end) := ParenText(source, j);
    WantedBounds(v, source, h, k);
    ArgsEndAt(source, j);
    var m := j + 1 + |args|;
    if m < |source| && m < k { NameStartsAfter(v, source, h, k, m); }
    if h < m {
      ArgsInCode(source, j, k);
      WantedInPiece(v, source, j + 1, m, h, k);
      assert args[k - j - 1] == '(' by { assert args == source[j + 1..m]; }
      AreCovered(v, args, base + j + 1, bare, h - j - 1, k - j - 1);
    } else {
      ParenPasses(source, j, k);
    }
  }

  lemma {:induction false} FoundInChain(v: Vocabulary, source: string, base: nat, i: nat, qualified: string, h: nat, k: nat)
    requires Usual(v) && i <= h && Wanted(v, source, h, k) && i <= |source| && InCode(source, i, None, false, k)
    requires InStep(ChainSites(v, source, base, i, qualified).0, base + h)
    ensures var (sites, next) := ChainSites(v, source, base, i, qualified);
            Covered(sites, base + h, base + k) || (next <= h && InCode(source, next, None, false, k))
    decreases |source|, 1, |source| - i
  {
    hide InCode, NextLink, ArgCalls, ParenText, Recorded, Hidden, InStep, NameText, Wanted, Usual;
    WantedBounds(v, source, h, k);
    match NextLink(v, source, i)
    case None =>
    case Some((m, e, j)) =>
      var ident := source[m..e];
      var (site, end) := ParenSite(source, base, ident, qualified + "()." + ident, j);
      LinkIsNameText(v, source, i);
      NotBefore(v, source, i, j, k);
      var nested := ArgCalls(v, site.args, base + j + 1, {});
      var (rest, next) := ChainSites(v, source, base, end, site.qualified);
      CallJoin(site, nested, rest, base + h, base + k);
      if k > j {
        NameStartsAfter(v, source, h, k, j);
        NameTextInCode(v, source, i, j, k);
        FoundInParens(v, source, base, j, {}, h, k);
        if !Covered(nested, base + h, base + k) { FoundInChain(v, source, base, end, site.qualified, h, k); }
      }
  }

  /** A call with its parenthesis at `j` behind name text: it, its arguments and its chain cover the name, or it comes later. */
  lemma {:induction false} FoundInCall(v: Vocabulary, source: string, base: nat, i: nat, j: nat, name: string,
    qualified: string, bare: set<string>, h: nat, k: nat)
    requires Usual(v) && i <= j < |source| && source[j] == '(' && NameText(v, source, i, j)
    requires i <= h && Wanted(v, source, h, k) && InCode(source, i, None, false, k)
    requires InStep(CallAndChain(v, source, base, name, qualified, j, bare).0, base + h)
    ensures var (sites, next) := CallAndChain(v, source, base, name, qualified, j, bare);
            Covered(sites, base + h, base + k) || (next <= h && InCode(source, next, None, false, k))
    decreases |source|, 1, |source| + 1
  {
    hide InCode, ArgCalls, ParenText, Recorded, Hidden, InStep, Wanted, Usual, NameText, ChainSites;
    var (site, end) := ParenSite(source, base, name, qualified, j);
    var nested := ArgCalls(v, site.args, base + j + 1, bare);
    var (chain, next) := ChainSites(v, source, base, end, qualified);
    WantedBounds(v, source, h, k);
    NotBefore(v, source, i, j, k);
    CallJoin(site, nested, chain, base + h, base + k);
    if k > j {
      NameStartsAfter(v, source, h, k, j);
      NameTextInCode(v, source, i, j, k);
      FoundInParens(v, source, base, j, bare, h, k);
      if !Covered(nested, base + h, base + k) { FoundInChain(v, source, base, end, qualified, h, k); }
    }
  }

  /** A call, the sites in its arguments and those chained to it. */
  function CallAndChain(v: Vocabulary, source: string, base: nat, name: string, qualified: string, j: nat, bare: set<string>):
    (r: (seq<CallSite>, nat))
    requires j < |source| && source[j] == '('
    ensures j < r.1 <= |source|
  {
    var (site, end) := ParenSite(source, base, name, qualified, j);
    var (chain, next) := ChainSites(v, source, base, end, qualified);
    ([site] + ArgCalls(v, site.args, base + j + 1, bare) + chain, next)
  }

  /** `new X(...)` covers a name, or the name comes later. */
  lemma FoundPastNew(v: Vocabulary, source: string, base: nat, i: nat, e: nat, h: nat, k: nat)
    requires Usual(v) && i <= e <= |source| && NameText(v, source, i, e) && NewSite(v, source, base, e).Some?
    requires i <= h && Wanted(v, source, h, k) && InCode(source, i, None, false, k)
    ensures var (site, end) := NewSite(v, source, base, e).value;
            Covered([site], base + h, base + k) || (end <= h && InCode(source, end, None, false, k))
  {
    hide NewSite, NameText, Wanted, Usual, InCode, ParenText, Recorded, Hidden;
    NewShape(v, source, base, e);
    var (site, end) := NewSite(v, source, base, e).value;
    var j := site.at - base;
    NameTextJoin(v, source, i, e, j);
    WantedBounds(v, source, h, k);
    NotBefore(v, source, i, j, k);
    RecordedOne(site, base + k);
    HiddenOne(site, base + h);
    if k > j {
      NameStartsAfter(v, source, h, k, j);
      if h >= end {
        NameTextInCode(v, source, i, j, k);
        ParenPasses(source, j, k);
      }
    }
  }

  /** `={...}` covers a name, or the name comes later. */
  lemma FoundPastBrace(v: Vocabulary, source: string, base: nat, i: nat, j: nat, name: string, qualified: string, h: nat, k: nat)
    requires Usual(v) && i <= j && StartsAt(source, j, "={") && NameText(v, source, i, j)
    requires i <= h && Wanted(v, source, h, k) && i <= |source| && InCode(source, i, None, false, k)
    ensures var (site, end) := BraceSite(source, base, name, qualified, j);
            Covered([site], base + h, base + k) || (end <= h && InCode(source, end, None, false, k))
  {
    hide BraceSite, StartsAt, InCode, SkipEnd, Wanted, Usual, NameText, Recorded, Hidden;
    BraceShape(source, base, name, qualified, j);
    var (site, end) := BraceSite(source, base, name, qualified, j);
    WantedBounds(v, source, h, k);
    NotBefore(v, source, i, j, k);
    RecordedOne(site, base + k);
    HiddenOne(site, base + h);
    NameStartsAfter(v, source, h, k, j);
    NameStartsAfter(v, source, h, k, j + 1);
    if h >= end {
      NameTextInCode(v, source, i, j, k);
      BracePasses(source, j, k);
    }
  }

  /** A text taken without parentheses from `j` on covers a name, or the name comes later. */
  lemma FoundPastTaken(v: Vocabulary, source: string, base: nat, i: nat, j: nat, site: CallSite, end: nat, h: nat, k: nat)
    requires Usual(v) && i <= j && TakenText(v, source, base, site, j, end) && NameText(v, source, i, j)
    requires j <= h && Wanted(v, source, h, k) && i <= |source| && InCode(source, i, None, false, k)
    requires InStep([site], base + h)
    ensures Covered([site], base + h, base + k) || (end <= h && InCode(source, end, None, false, k))
  {
    hide InCode, Wanted, Usual, NameText, EndsInCode, Recorded, Hidden, Quiet;
    WantedBounds(v, source, h, k);
    HiddenOne(site, base + h);
    if h >= end {
      assert [site][0] == site;
      NameTextInCode(v, source, i, j, k);
      TakenPasses(v, source, base, site, j, end, k);
    }
  }

  /** Which branch reads the word at `i`. */
  datatype Branch = NewBranch | CallBranch | BraceBranch | BareBranch | AssignBranch | NoBranch

  function BranchAt(v: Vocabulary, source: string, i: nat, bare: set<string>): (b: Branch)
    requires i < |source|
    ensures b == NewBranch ==> NewSite(v, source, 0, IdentEnd(v, source, i)).Some?
  {
    var e := IdentEnd(v, source, i);
    var name := NameAt(v, source, i);
    var j := AfterBlanks(source, name.end, BLANKS_AND_BREAKS);
    if source[i..e] == "new" && NewSite(v, source, 0, e).Some? then NewBranch
    else if j < |source| && source[j] == '(' then
      if (v.lower(name.ident) in v.nonCall && !IsMember(name.qualified)) || Declared(v, source, i) then NoBranch
      else CallBranch
    else if StartsAt(source, j, "={") then BraceBranch
    else if v.lower(name.ident) in bare && BareSite(v, source, 0, name.ident, name.qualified, j).Some? then BareBranch
    else if j < |source| && source[j] == '=' && !IsComparisonOrArrow(source, j)
            && (Contains(name.qualified, ".") || Contains(name.qualified, "::")) then AssignBranch
    else NoBranch
  }

  lemma NewAnywhere(v: Vocabulary, source: string, base: nat, i: nat)
    requires i <= |source|
    ensures NewSite(v, source, 0, i).Some? <==> NewSite(v, source, base, i).Some?
  {
    hide AfterBlanks, IdentEnd, MemberChain, ParenSite;
  }

  lemma BareAnywhere(v: Vocabulary, source: string, base: nat, name: string, qualified: string, j: nat)
    requires j <= |source|
    ensures BareSite(v, source, 0, name, qualified, j).Some? <==> BareSite(v, source, base, name, qualified, j).Some?
  {
    hide AfterBlanks, BreakFrom, StripLeft, StripRight;
  }

  /** What the word contributes, branch by branch. */
  lemma WordByBranch(v: Vocabulary, source: string, base: nat, i: nat, bare: set<string>)
    requires i < |source| && v.identStart(source[i])
    ensures var e := IdentEnd(v, source, i);
            var name := NameAt(v, source, i);
            var j := AfterBlanks(source, name.end, BLANKS_AND_BREAKS);
            var r := WordSites(v, source, base, i, bare);
            match BranchAt(v, source, i, bare)
            case NewBranch =>
              NewSite(v, source, base, e).Some? && r == ([NewSite(v, source, base, e).value.0], NewSite(v, source, base, e).value.1)
            case CallBranch =>
              j < |source| && source[j] == '(' && r == CallAndChain(v, source, base, name.ident, name.qualified, j, bare)
            case BraceBranch =>
              StartsAt(source, j, "={") &&
              var (site, end) := BraceSite(source, base, name.ident, name.qualified, j); r == ([site], end)
            case BareBranch =>
              var site := BareSite(v, source, base, name.ident, name.qualified, j);
              site.Some? && r == ([site.value.0], site.value.1)
            case AssignBranch =>
              j < |source| && source[j] == '=' &&
              var (site, end) := AssignSite(v, source, base, name.ident, name.qualified, j); r == ([site], end)
            case NoBranch => r == ([], e)
  {
    hide IdentEnd, AfterBlanks, MemberChain, NewSite, Declared, ParenSite, BraceSite, BareSite, AssignSite, ArgCalls,
      ChainSites, StartsAt, Contains, IsComparisonOrArrow, IsMember;
    var e := IdentEnd(v, source, i);
    var name := NameAt(v, source, i);
    NewAnywhere(v, source, base, e);
    BareAnywhere(v, source, base, name.ident, name.qualified, AfterBlanks(source, name.end, BLANKS_AND_BREAKS));
  }

  lemma NameTextToSite(v: Vocabulary, source: string, i: nat)
    requires Usual(v) && i <= |source|
    ensures NameText(v, source, i, IdentEnd(v, source, i))
    ensures NameText(v, source, i, AfterBlanks(source, NameAt(v, source, i).end, BLANKS_AND_BREAKS))
    ensures IdentEnd(v, source, i) <= NameAt(v, source, i).end
  {
    hide NameText, AfterBlanks, IdentEnd, MemberChain, Usual;
    WordIsNameText(v, source, i);
  }

  /** The word at `i` covers the name, or the scan goes on before it. */
  lemma {:induction false} FoundInWord(v: Vocabulary, source: string, base: nat, i: nat, bare: set<string>, h: nat, k: nat)
    requires Usual(v) && i < |source| && v.identStart(source[i])
    requires i <= h && Wanted(v, source, h, k) && InCode(source, i, None, false, k)
    requires InStep(WordSites(v, source, base, i, bare).0, base + h)
    ensures var (sites, next) := WordSites(v, source, base, i, bare);
            Covered(sites, base + h, base + k) || (next <= h && InCode(source, next, None, false, k))
    decreases |source|, 2, 0
  {
    hide *;
    var e := IdentEnd(v, source, i);
    var name := NameAt(v, source, i);
    var j := AfterBlanks(source, name.end, BLANKS_AND_BREAKS);
    WordByBranch(v, source, base, i, bare);
    NameTextToSite(v, source, i);
    WantedBounds(v, source, h, k);
    BehindWord(v, source, i, bare, h, k);
    match BranchAt(v, source, i, bare)
    case NewBranch => FoundPastNew(v, source, base, i, e, h, k);
    case CallBranch => FoundInCall(v, source, base, i, j, name.ident, name.qualified, bare, h, k);
    case BraceBranch => FoundPastBrace(v, source, base, i, j, name.ident, name.qualified, h, k);
    case BareBranch =>
      BareShape(v, source, base, name.ident, name.qualified, j);
      var (site, end) := BareSite(v, source, base, name.ident, name.qualified, j).value;
      FoundPastTaken(v, source, base, i, j, site, end, h, k);
    case AssignBranch =>
      AssignShape(v, source, base, name.ident, name.qualified, j);
      var (site, end) := AssignSite(v, source, base, name.ident, name.qualified, j);
      FoundPastTaken(v, source, base, i, j, site, end, h, k);
    case NoBranch =>
      NameTextInCode(v, source, i, e, k);
  }

  /** Where the word at `i` does not read up to the parenthesis of a name, the name begins behind what it read. */
  lemma BehindWord(v: Vocabulary, source: string, i: nat, bare: set<string>, h: nat, k: nat)
    requires Usual(v) && i <= h && i < |source| && v.identStart(source[i]) && Wanted(v, source, h, k)
    ensures var j := AfterBlanks(source, NameAt(v, source, i).end, BLANKS_AND_BREAKS);
            && (BranchAt(v, source, i, bare) in {BareBranch, AssignBranch} ==> j <= h)
            && (BranchAt(v, source, i, bare) == NoBranch ==> IdentEnd(v, source, i) <= h)
  {
    hide MemberChain, AfterBlanks, IdentEnd, Usual, StartsAt, NewSite, BareSite, IsComparisonOrArrow, Contains, IsMember,
      Declared;
    var j := AfterBlanks(source, NameAt(v, source, i).end, BLANKS_AND_BREAKS);
    if h < j { HeadInName(v, source, i, h, k); }
    if i < h { LaterWord(v, source, i, h); }
    WantedBounds(v, source, h, k);
    StartsWithEquals(source, j);
  }

  lemma StartsWithEquals(source: string, j: nat)
    ensures StartsAt(source, j, "={") ==> j < |source| && source[j] == '='
  {
  }

  lemma InterpolationOpens(v: Vocabulary, source: string, base: nat, i: nat, k: int, bare: set<string>)
    requires i < |source| && source[i] != '\\' && Interpolates(source[i..])
    ensures var end := SkipEnd(source, i + 2);
            && ScanFrom(v, source, base, i, Some('`'), false, bare) ==
               CallsOf(v, Inner(source, i + 2), base + i + 2, bare) + ScanFrom(v, source, base, end, Some('`'), false, bare)
            && (InCode(source, i, Some('`'), false, k) <==>
                k >= i && if k < end then InCode(Inner(source, i + 2), 0, None, false, k - i - 2)
                          else InCode(source, end, Some('`'), false, k))
  {
    hide SkipEnd, Inner, CallsOf, InCode;
    InCodeOpens(source, i, k);
  }

  lemma Opened(source: string, i: nat)
    requires i <= |source| && Interpolates(source[i..])
    ensures i + 1 < |source| && source[i + 1] == '{'
  {
  }

  lemma {:induction false} FoundPastInterpolation(v: Vocabulary, source: string, base: nat, i: nat, bare: set<string>, h: nat,
    k: nat)
    requires Usual(v) && i < h && Wanted(v, source, h, k)
    requires i < |source| && source[i] != '\\' && Interpolates(source[i..]) && InCode(source, i, Some('`'), false, k)
    requires InStep(ScanFrom(v, source, base, i, Some('`'), false, bare), base + h)
    ensures Covered(ScanFrom(v, source, base, i, Some('`'), false, bare), base + h, base + k)
    decreases |source|, 3, |source| - i - 1
  {
    hide Wanted, Usual, SkipEnd, Inner, Covered, InStep, CallsOf, Interpolates, ScanFrom, InCode, NameText;
    Opened(source, i);
    WantedBounds(v, source, h, k);
    InterpolationOpens(v, source, base, i, k, bare);
    NameStartsAfter(v, source, h, k, i + 1);
    var inner := Inner(source, i + 2);
    var end := SkipEnd(source, i + 2);
    var found := CallsOf(v, inner, base + i + 2, bare);
    var rest := ScanFrom(v, source, base, end, Some('`'), false, bare);
    CoveredJoin(found, rest, base + h, base + k);
    InStepParts(found, rest, base + h);
    if k < end {
      InCodeBounds(inner, k - i - 2);
      WantedInPiece(v, source, i + 2, i + 2 + |inner|, h, k);
      AreCovered(v, inner, base + i + 2, bare, h - i - 2, k - i - 2);
    } else {
      if end < |source| {
        SkipEndsAtBrace(source, i + 2);
        NameStartsAfter(v, source, h, k, end - 1);
      }
      FoundFrom(v, source, base, end, Some('`'), false, bare, h, k);
    }
  }

  lemma InCodeBounds(source: string, k: int)
    requires InCode(source, 0, None, false, k)
    ensures 0 <= k < |source|
  {
    if k >= |source| {
      hide InCode;
      BeyondTheEnd(source, 0, None, false, k);
    }
  }

  lemma NameInString(v: Vocabulary, source: string, i: nat, quote: char, escape: bool, h: nat, k: nat)
    requires Usual(v) && i <= h && Wanted(v, source, h, k) && quote in QUOTES.delims
    requires InCode(source, i, Some(quote), escape, k)
    ensures i < h
  {
    hide InCode, Wanted;
    WantedBounds(v, source, h, k);
    if h == i {
      NameTextIsPlain(v, source, h, k);
      forall p | i <= p < k ensures source[p] != '{' { if source[p] == '{' { NameStartsAfter(v, source, h, k, p); } }
      StringGoesOn(source, i, quote, escape, k);
    }
  }

  lemma {:induction false} FoundFrom(v: Vocabulary, source: string, base: nat, i: nat, quote: Option<char>, escape: bool,
    bare: set<string>, h: nat, k: nat)
    requires Usual(v) && i <= h && Wanted(v, source, h, k) && i <= |source|
    requires (quote.Some? ==> quote.value in QUOTES.delims) && (quote.None? ==> !escape)
    requires InCode(source, i, quote, escape, k) && InStep(ScanFrom(v, source, base, i, quote, escape, bare), base + h)
    ensures Covered(ScanFrom(v, source, base, i, quote, escape, bare), base + h, base + k)
    decreases |source|, 3, |source| - i
  {
    hide Wanted, Usual, SkipEnd, Inner, WordSites, IdentEnd, Covered, InStep, CallsOf, Interpolates, NameText;
    WantedBounds(v, source, h, k);
    var ch := source[i];
    if quote.Some? {
      NameInString(v, source, i, quote.value, escape, h, k);
      if quote == Some('`') && !escape && ch != '\\' && Interpolates(source[i..]) {
        FoundPastInterpolation(v, source, base, i, bare, h, k);
      } else {
        var left := !escape && ch != '\\' && quote == Some(ch);
        FoundFrom(v, source, base, i + 1, if left then None else quote, !escape && ch == '\\', bare, h, k);
      }
    } else if ch in QUOTES.delims {
      FoundFrom(v, source, base, i + 1, Some(ch), false, bare, h, k);
    } else if ch == '\n' || IdentEnd(v, source, i) == i {
      FoundFrom(v, source, base, i + 1, None, false, bare, h, k);
    } else {
      var (sites, next) := WordSites(v, source, base, i, bare);
      var rest := ScanFrom(v, source, base, next, None, false, bare);
      InStepParts(sites, rest, base + h);
      CoveredJoin(sites, rest, base + h, base + k);
      FoundInWord(v, source, base, i, bare, h, k);
      if !Covered(sites, base + h, base + k) { FoundFrom(v, source, base, next, None, false, bare, h, k); }
    }
  }

  /** A wanted call in code is recorded, or the head of its name lies in a text that is not searched. */
  lemma {:induction false} AreCovered(v: Vocabulary, source: string, base: nat, bare: set<string>, h: nat, k: nat)
    requires Usual(v) && Wanted(v, source, h, k) && InCode(source, 0, None, false, k)
    requires InStep(CallsOf(v, source, base, bare), base + h)
    ensures Covered(CallsOf(v, source, base, bare), base + h, base + k)
    decreases |source|, 4, 0
  {
    hide InCode, Covered, InStep, ScanFrom, Usual, Wanted;
    FoundFrom(v, source, base, 0, None, false, bare, h, k);
  }

  // ----- what a hidden name calls is not recorded -----------------------------------------------------------------

  /** Name text from `h` to the parenthesis at `k`; a line break in it has only blanks behind it. */
  predicate Named(v: Vocabulary, source: string, h: nat, k: nat) {
    h < k < |source| && source[k] == '(' && NameText(v, source, h, k) && OneLine(source, h, k)
  }

  lemma NamedInPiece(v: Vocabulary, source: string, p: nat, m: nat, h: nat, k: nat)
    requires p <= h && k < m <= |source| && Named(v, source, h, k)
    ensures Named(v, source[p..m], h - p, k - p)
  {
    var piece := source[p..m];
    forall q | h - p <= q < k - p ensures piece[q] == source[p + q] { }
    forall a, b | h - p <= a <= b < k - p && piece[a] == '\n' ensures piece[b] in BLANKS_AND_BREAKS {
      assert source[p + a] == '\n' && source[p + b] == piece[b];
    }
  }

  lemma RecordedWithin(source: string, base: nat, found: seq<CallSite>, lo: nat, hi: nat, p: int)
    requires Good(source, base, found, lo, hi)
    ensures Recorded(found, p) || Hidden(found, p) ==> base + lo <= p < base + hi
  {
    if Hidden(found, p) {
      var m :| 0 <= m < |found| && found[m].kind != Paren && found[m].from <= p < found[m].end;
      assert Located(source, base, found[m]);
    }
  }

  /** Arguments: the sites in them record nothing for a name they hide. */
  lemma {:induction false} ClearInArgs(v: Vocabulary, source: string, base: nat, j: nat, bare: set<string>, h: nat, k: nat)
    requires Usual(v) && j < |source| && source[j] == '(' && Named(v, source, h, k)
    ensures var (args, end) := ParenText(source, j);
            var nested := ArgCalls(v, args, base + j + 1, bare);
            && (Hidden(nested, base + h) ==> !Recorded(nested, base + k) && j < k < end)
            && (Recorded(nested, base + k) ==> j < k < end)
    decreases |source|, 0, 0
  {
    hide ParenText, Recorded, Hidden, Usual, CallsOf, Good, Named, ArgCalls;
    var (args, end) := ParenText(source, j);
    var nested := ArgCalls(v, args, base + j + 1, bare);
    ArgsAreGood(v, args, base + j + 1, bare);
    RecordedWithin(args, base + j + 1, nested, 0, |args|, base + h);
    RecordedWithin(args, base + j + 1, nested, 0, |args|, base + k);
    if Hidden(nested, base + h) {
      var m := j + 1 + |args|;
      ArgsEndAt(source, j);
      NamedBounds(v, source, h, k);
      if m < |source| && k > m { NameStartsAfter(v, source, h, k, m); }
      NamedInPiece(v, source, j + 1, m, h, k);
      ArgsAreScanned(v, args, base + j + 1, bare, base + h);
      ClearInCalls(v, args, base + j + 1, bare, h - j - 1, k - j - 1);
    }
  }

  lemma NamedBounds(v: Vocabulary, source: string, h: nat, k: nat)
    requires Named(v, source, h, k)
    ensures h < k < |source| && source[k] == '(' && NameText(v, source, h, k)
  {
  }

  lemma ArgsAreScanned(v: Vocabulary, args: string, base: nat, bare: set<string>, p: int)
    requires Hidden(ArgCalls(v, args, base, bare), p)
    ensures ArgCalls(v, args, base, bare) == CallsOf(v, args, base, bare)
  {
    hide CallsOf;
  }

  lemma {:induction false} ClearInChain(v: Vocabulary, source: string, base: nat, i: nat, qualified: string, h: nat, k: nat)
    requires Usual(v) && i <= |source| && Named(v, source, h, k)
    ensures var found := ChainSites(v, source, base, i, qualified).0; Hidden(found, base + h) ==> !Recorded(found, base + k)
    decreases |source|, 1, |source| - i
  {
    hide NextLink, ArgCalls, ParenText, Recorded, Hidden, Usual, Good, Named;
    NamedBounds(v, source, h, k);
    match NextLink(v, source, i)
    case None => NothingHidden(base + h);
    case Some((m, e, j)) =>
      var ident := source[m..e];
      var (site, end) := ParenSite(source, base, ident, qualified + "()." + ident, j);
      var nested := ArgCalls(v, site.args, base + j + 1, {});
      var (rest, next) := ChainSites(v, source, base, end, site.qualified);
      CallJoin(site, nested, rest, base + h, base + k);
      ClearInArgs(v, source, base, j, {}, h, k);
      ClearInChain(v, source, base, end, site.qualified, h, k);
      ChainIsGood(v, source, base, end, site.qualified);
      RecordedWithin(source, base, rest, end, next, base + h);
      RecordedWithin(source, base, rest, end, next, base + k);
  }

  lemma NothingHidden(p: int)
    ensures !Hidden([], p)
  {
  }

  lemma {:induction false} ClearInCall(v: Vocabulary, source: string, base: nat, name: string, qualified: string, j: nat,
    bare: set<string>, h: nat, k: nat)
    requires Usual(v) && j < |source| && source[j] == '(' && Named(v, source, h, k)
    ensures var found := CallAndChain(v, source, base, name, qualified, j, bare).0;
            Hidden(found, base + h) ==> !Recorded(found, base + k)
    decreases |source|, 1, |source| + 1
  {
    hide ArgCalls, ParenText, Recorded, Hidden, Usual, Good, Named, ChainSites;
    NamedBounds(v, source, h, k);
    var (site, end) := ParenSite(source, base, name, qualified, j);
    var nested := ArgCalls(v, site.args, base + j + 1, bare);
    var (chain, next) := ChainSites(v, source, base, end, qualified);
    CallJoin(site, nested, chain, base + h, base + k);
    ClearInArgs(v, source, base, j, bare, h, k);
    ClearInChain(v, source, base, end, qualified, h, k);
    ChainIsGood(v, source, base, end, qualified);
    RecordedWithin(source, base, chain, end, next, base + h);
    RecordedWithin(source, base, chain, end, next, base + k);
  }

  /** A single site: its position comes before the text it took. */
  lemma ClearInSite(source: string, base: nat, site: CallSite, h: nat, k: nat)
    requires Located(source, base, site) && h < k
    ensures Hidden([site], base + h) ==> !Recorded([site], base + k)
  {
    HiddenOne(site, base + h);
    RecordedOne(site, base + k);
  }

  lemma {:induction false} ClearInWord(v: Vocabulary, source: string, base: nat, i: nat, bare: set<string>, h: nat, k: nat)
    requires Usual(v) && i < |source| && v.identStart(source[i]) && Named(v, source, h, k)
    ensures var found := WordSites(v, source, base, i, bare).0; Hidden(found, base + h) ==> !Recorded(found, base + k)
    decreases |source|, 2, 0
  {
    hide *;
    NamedBounds(v, source, h, k);
    var e := IdentEnd(v, source, i);
    var name := NameAt(v, source, i);
    var j := AfterBlanks(source, name.end, BLANKS_AND_BREAKS);
    WordByBranch(v, source, base, i, bare);
    NothingHidden(base + h);
    WordIsGood(v, source, base, i, bare);
    var (found, next) := WordSites(v, source, base, i, bare);
    if |found| == 1 {
      GoodSite(source, base, found, i, next);
      assert found == [found[0]];
      ClearInSite(source, base, found[0], h, k);
    }
    if BranchAt(v, source, i, bare) == CallBranch {
      ClearInCall(v, source, base, name.ident, name.qualified, j, bare, h, k);
    }
  }

  lemma GoodSite(source: string, base: nat, found: seq<CallSite>, lo: nat, hi: nat)
    requires Good(source, base, found, lo, hi) && |found| == 1
    ensures Located(source, base, found[0])
  {
    hide Located;
  }

  /** Where the scan goes on behind the sites of a word: behind a bracket, before a break, or at the end of the text. */
  predicate Stopped(source: string, next: nat) {
    next == |source| || (0 < next < |source| && (source[next - 1] in ")}" || source[next] in ")]};\n"))
  }

  lemma ChainStops(v: Vocabulary, source: string, base: nat, i: nat, qualified: string)
    requires i <= |source| && Stopped(source, i)
    ensures Stopped(source, ChainSites(v, source, base, i, qualified).1)
    decreases |source| - i
  {
    hide NextLink, ArgCalls, ParenText;
    match NextLink(v, source, i)
    case None =>
    case Some((m, e, j)) =>
      var ident := source[m..e];
      var (site, end) := ParenSite(source, base, ident, qualified + "()." + ident, j);
      ArgsEndAt(source, j);
      ChainStops(v, source, base, end, site.qualified);
  }

  lemma CallStops(v: Vocabulary, source: string, base: nat, name: string, qualified: string, j: nat, bare: set<string>)
    requires j < |source| && source[j] == '('
    ensures Stopped(source, CallAndChain(v, source, base, name, qualified, j, bare).1)
  {
    hide ArgCalls, ParenText, ChainSites;
    var (site, end) := ParenSite(source, base, name, qualified, j);
    ArgsEndAt(source, j);
    ChainStops(v, source, base, end, qualified);
  }

  lemma WordStops(v: Vocabulary, source: string, base: nat, i: nat, bare: set<string>)
    requires Usual(v) && i < |source| && v.identStart(source[i])
    ensures var (found, next) := WordSites(v, source, base, i, bare); found == [] || Stopped(source, next)
  {
    hide IdentEnd, AfterBlanks, NewSite, BraceSite, BareSite, AssignSite, StartsAt, SkipEnd, ParenText, CallAndChain, NameAt,
      WordSites, BranchAt, Usual, NameText, Quiet, Wordless;
    var e := IdentEnd(v, source, i);
    var name := NameAt(v, source, i);
    var j := AfterBlanks(source, name.end, BLANKS_AND_BREAKS);
    WordByBranch(v, source, base, i, bare);
    match BranchAt(v, source, i, bare)
    case NewBranch =>
      NewShape(v, source, base, e);
      ArgsEndAt(source, NewSite(v, source, base, e).value.0.at - base);
    case CallBranch => CallStops(v, source, base, name.ident, name.qualified, j, bare);
    case BraceBranch =>
      BraceShape(source, base, name.ident, name.qualified, j);
      if SkipEnd(source, j + 2) < |source| { SkipEndsAtBrace(source, j + 2); }
    case BareBranch => BareShape(v, source, base, name.ident, name.qualified, j);
    case AssignBranch => AssignShape(v, source, base, name.ident, name.qualified, j);
    case NoBranch =>
  }

  /** Blanks, line breaks and a parenthesis without a name record nothing. */
  lemma {:induction false} NamelessParen(v: Vocabulary, source: string, base: nat, i: nat, bare: set<string>, k: nat)
    requires Usual(v) && i <= k < |source| && source[k] == '('
    requires forall p :: i <= p < k ==> source[p] in BLANKS_AND_BREAKS
    ensures ScanFrom(v, source, base, i, None, false, bare) == ScanFrom(v, source, base, k + 1, None, false, bare)
    decreases k - i
  {
    hide *;
    NoNameHere(v, source, i);
    NamelessStep(v, source, base, i, bare);
    if i < k { NamelessParen(v, source, base, i + 1, bare, k); }
  }

  lemma NoNameHere(v: Vocabulary, source: string, i: nat)
    requires Usual(v) && i < |source| && (source[i] in BLANKS_AND_BREAKS || source[i] == '(')
    ensures source[i] !in QUOTES.delims && IdentEnd(v, source, i) == i
  {
    assert source[i] in MARKS;
  }

  lemma NamelessStep(v: Vocabulary, source: string, base: nat, i: nat, bare: set<string>)
    requires i < |source| && source[i] !in QUOTES.delims && IdentEnd(v, source, i) == i
    ensures ScanFrom(v, source, base, i, None, false, bare) == ScanFrom(v, source, base, i + 1, None, false, bare)
  {
    hide WordSites, IdentEnd;
  }

  /** Behind a text that hides the name, nothing is recorded for it. */
  lemma ClearBehind(v: Vocabulary, source: string, base: nat, next: nat, bare: set<string>, h: nat, k: nat)
    requires Usual(v) && Named(v, source, h, k) && h < next <= k && Stopped(source, next)
    ensures !Recorded(ScanFrom(v, source, base, next, None, false, bare), base + k)
  {
    hide ScanFrom, Recorded, Good, Usual, NameText;
    if source[next - 1] in ")}" { NameStartsAfter(v, source, h, k, next - 1); }
    if source[next] in ")]};" { assert source[next] in STOPS; NameStartsAfter(v, source, h, k, next); }
    assert source[next] == '\n';
    NamelessParen(v, source, base, next, bare, k);
    var rest := ScanFrom(v, source, base, k + 1, None, false, bare);
    ScanIsGood(v, source, base, k + 1, None, false, bare);
    RecordedWithin(source, base, rest, k + 1, |source|, base + k);
  }

  lemma {:induction false} ClearFrom(v: Vocabulary, source: string, base: nat, i: nat, quote: Option<char>, escape: bool,
    bare: set<string>, h: nat, k: nat)
    requires Usual(v) && i <= |source| && Named(v, source, h, k)
    ensures var found := ScanFrom(v, source, base, i, quote, escape, bare); Hidden(found, base + h) ==> !Recorded(found, base + k)
    decreases |source|, 3, |source| - i
  {
    hide Usual, SkipEnd, Inner, WordSites, IdentEnd, Recorded, Hidden, CallsOf, Interpolates, Named, Good, Stopped;
    NothingHidden(base + h);
    NamedBounds(v, source, h, k);
    if i < |source| {
      var ch := source[i];
      if quote == Some('`') && !escape && ch != '\\' && Interpolates(source[i..]) {
        ClearInInterpolation(v, source, base, i, bare, h, k);
      } else if quote.None? && ch !in QUOTES.delims && ch != '\n' && IdentEnd(v, source, i) > i {
        var (sites, next) := WordSites(v, source, base, i, bare);
        var rest := ScanFrom(v, source, base, next, None, false, bare);
        RecordedJoin(sites, rest, base + k);
        HiddenJoin(sites, rest, base + h);
        WordIsGood(v, source, base, i, bare);
        RecordedWithin(source, base, sites, i, next, base + h);
        RecordedWithin(source, base, sites, i, next, base + k);
        ScanIsGood(v, source, base, next, None, false, bare);
        RecordedWithin(source, base, rest, next, |source|, base + h);
        RecordedWithin(source, base, rest, next, |source|, base + k);
        ClearInWord(v, source, base, i, bare, h, k);
        ClearFrom(v, source, base, next, None, false, bare, h, k);
        WordStops(v, source, base, i, bare);
        if Hidden(sites, base + h) && next <= k { ClearBehind(v, source, base, next, bare, h, k); }
      } else {
        var left := !escape && ch != '\\' && quote == Some(ch);
        var quote' := if quote.None? then (if ch in QUOTES.delims then Some(ch) else None) else if left then None else quote;
        ClearFrom(v, source, base, i + 1, quote', quote.Some? && !escape && ch == '\\', bare, h, k);
      }
    }
  }

  lemma {:induction false} ClearInInterpolation(v: Vocabulary, source: string, base: nat, i: nat, bare: set<string>, h: nat,
    k: nat)
    requires Usual(v) && Named(v, source, h, k)
    requires i < |source| && source[i] != '\\' && Interpolates(source[i..])
    ensures var found := ScanFrom(v, source, base, i, Some('`'), false, bare); Hidden(found, base + h) ==> !Recorded(found, base + k)
    decreases |source|, 3, |source| - i - 1
  {
    hide Usual, SkipEnd, Inner, Recorded, Hidden, CallsOf, Interpolates, Named, Good, ScanFrom, InCode;
    Opened(source, i);
    InterpolationOpens(v, source, base, i, k, bare);
    NamedBounds(v, source, h, k);
    var inner := Inner(source, i + 2);
    var end := SkipEnd(source, i + 2);
    var found := CallsOf(v, inner, base + i + 2, bare);
    var rest := ScanFrom(v, source, base, end, Some('`'), false, bare);
    RecordedJoin(found, rest, base + k);
    HiddenJoin(found, rest, base + h);
    CallsAreGood(v, inner, base + i + 2, bare);
    RecordedWithin(inner, base + i + 2, found, 0, |inner|, base + h);
    RecordedWithin(inner, base + i + 2, found, 0, |inner|, base + k);
    ScanIsGood(v, source, base, end, Some('`'), false, bare);
    RecordedWithin(source, base, rest, end, |source|, base + h);
    RecordedWithin(source, base, rest, end, |source|, base + k);
    ClearFrom(v, source, base, end, Some('`'), false, bare, h, k);
    if Hidden(found, base + h) {
      if end < |source| {
        SkipEndsAtBrace(source, i + 2);
        if k > end - 1 { NameStartsAfter(v, source, h, k, end - 1); }
      }
      if k < i + 2 + |inner| {
        NamedInPiece(v, source, i + 2, i + 2 + |inner|, h, k);
        ClearInCalls(v, inner, base + i + 2, bare, h - i - 2, k - i - 2);
      }
    }
  }

  lemma {:induction false} ClearInCalls(v: Vocabulary, source: string, base: nat, bare: set<string>, h: nat, k: nat)
    requires Usual(v) && Named(v, source, h, k)
    ensures var found := CallsOf(v, source, base, bare); Hidden(found, base + h) ==> !Recorded(found, base + k)
    decreases |source|, 4, 0
  {
    hide Recorded, Hidden, ScanFrom, Usual, Named;
    ClearFrom(v, source, base, 0, None, false, bare, h, k);
  }

  /**
   A call in code of a name that is neither a keyword nor declared is recorded if the head of the name does not lie in a
   text that is not searched, at any depth of arguments, chains and interpolations; if no line break stands before the
   last part of the name, it is recorded only then.
   */
  lemma CallsAreFound(v: Vocabulary, source: string, base: nat, bare: set<string>, h: nat, k: nat)
    requires Usual(v) && Wanted(v, source, h, k) && InCode(source, 0, None, false, k)
    requires InStep(CallsOf(v, source, base, bare), base + h)
    ensures var found := CallsOf(v, source, base, bare);
            && (!Hidden(found, base + h) ==> Recorded(found, base + k))
            && (OneLine(source, h, k) ==> (Recorded(found, base + k) <==> !Hidden(found, base + h)))
  {
    AreCovered(v, source, base, bare, h, k);
    WantedBounds(v, source, h, k);
    if OneLine(source, h, k) { ClearInCalls(v, source, base, bare, h, k); }
  }

  /** The same for a single word, with blanks and line breaks before its parenthesis. */
  lemma WordsAreFound(v: Vocabulary, source: string, base: nat, bare: set<string>, a: nat, k: nat)
    requires Usual(v) && CallWord(v, source, a, k) && InCode(source, 0, None, false, k)
    requires v.lower(source[a..IdentEnd(v, source, a)]) !in v.nonCall && !Declared(v, source, a)
    requires InStep(CallsOf(v, source, base, bare), base + a)
    ensures var found := CallsOf(v, source, base, bare); Recorded(found, base + k) <==> !Hidden(found, base + a)
  {
    hide InCode, InStep, CallsOf, Usual, Wanted, Recorded, Hidden, Declared, OneLine;
    PlainCall(v, source, a, k);
    CallsAreFound(v, source, base, bare, a, k);
  }

  // ----- nothing else is recorded -------------------------------------------------------------------------------

  /** Position `k` is code, reading from `i`. */
  predicate CodeAt(source: string, i: nat, quote: Option<char>, escape: bool, k: int)
    requires i <= |source|
  {
    i <= k < |source| && InCode(source, i, quote, escape, k)
  }

  /** The sites in the arguments of the parenthesis at `j` are in code. */
  lemma {:induction false} ArgsAreCode(v: Vocabulary, source: string, base: nat, j: nat, bare: set<string>, at: int)
    requires Usual(v) && j < |source| && source[j] == '('
    requires var found := ArgCalls(v, ParenText(source, j).0, base + j + 1, bare); Recorded(found, at) && InStep(found, at)
    ensures CodeAt(source, j, None, false, at - base)
    decreases |source|, 0, 0
  {
    hide InCode, ParenText, Recorded, InStep, Usual, CallsOf;
    var (args, end) := ParenText(source, j);
    RecordedNone(at);
    CallsAreCode(v, args, base + j + 1, bare, at);
    ArgsInCode(source, j, at - base);
  }

  lemma {:induction false} ChainPasses(v: Vocabulary, source: string, base: nat, i: nat, qualified: string, k: int)
    requires Usual(v) && i <= |source| && k >= ChainSites(v, source, base, i, qualified).1
    ensures InCode(source, i, None, false, k) <==> InCode(source, ChainSites(v, source, base, i, qualified).1, None, false, k)
    decreases |source| - i
  {
    hide InCode, NextLink, ArgCalls, ParenText, NameText, Usual;
    match NextLink(v, source, i)
    case None =>
    case Some((m, e, j)) =>
      var ident := source[m..e];
      var (site, end) := ParenSite(source, base, ident, qualified + "()." + ident, j);
      LinkIsNameText(v, source, i);
      NameTextInCode(v, source, i, j, k);
      ParenPasses(source, j, k);
      ChainPasses(v, source, base, end, site.qualified, k);
  }

  lemma HereIsCode(source: string, i: nat, j: nat, m: nat)
    requires i <= j <= m < |source| && (forall p :: i <= p < m ==> source[p] !in QUOTES.delims)
    ensures CodeAt(source, i, None, false, m)
  {
    CodeHere(source, m);
    hide InCode;
    CodeGoesOn(source, i, m, m);
  }

  /** A call recorded behind name text: its own parenthesis, or a site in its arguments. */
  lemma {:induction false} CallIsCode(v: Vocabulary, source: string, base: nat, i: nat, j: nat, bare: set<string>, at: int)
    requires Usual(v) && i <= j < |source| && source[j] == '(' && NameText(v, source, i, j)
    requires var found := ArgCalls(v, ParenText(source, j).0, base + j + 1, bare);
             at == base + j || (Recorded(found, at) && InStep(found, at))
    ensures CodeAt(source, i, None, false, at - base)
    decreases |source|, 0, 1
  {
    hide InCode, ParenText, Recorded, InStep, Usual, NameText, ArgCalls;
    if at == base + j {
      NameTextIsPlain(v, source, i, j);
      HereIsCode(source, i, j, j);
    } else {
      ArgsAreCode(v, source, base, j, bare, at);
      NameTextInCode(v, source, i, j, at - base);
    }
  }

  lemma {:induction false} ChainIsCode(v: Vocabulary, source: string, base: nat, i: nat, qualified: string, at: int)
    requires Usual(v) && i <= |source|
    requires var found := ChainSites(v, source, base, i, qualified).0; Recorded(found, at) && InStep(found, at)
    ensures CodeAt(source, i, None, false, at - base)
    decreases |source|, 1, |source| - i
  {
    hide InCode, NextLink, ArgCalls, ParenText, Recorded, InStep, NameText, Usual;
    match NextLink(v, source, i)
    case None => RecordedNone(at);
    case Some((m, e, j)) =>
      var ident := source[m..e];
      var (site, end) := ParenSite(source, base, ident, qualified + "()." + ident, j);
      LinkIsNameText(v, source, i);
      var nested := ArgCalls(v, site.args, base + j + 1, {});
      var (rest, next) := ChainSites(v, source, base, end, site.qualified);
      CallJoin(site, nested, rest, at, at);
      if site.at == at || Recorded(nested, at) {
        CallIsCode(v, source, base, i, j, {}, at);
      } else {
        ChainIsCode(v, source, base, end, site.qualified, at);
        NameTextInCode(v, source, i, j, at - base);
        ParenPasses(source, j, at - base);
      }
  }

  lemma {:induction false} CallAndChainIsCode(v: Vocabulary, source: string, base: nat, i: nat, j: nat, name: string,
    qualified: string, bare: set<string>, at: int)
    requires Usual(v) && i <= j < |source| && source[j] == '(' && NameText(v, source, i, j)
    requires var found := CallAndChain(v, source, base, name, qualified, j, bare).0; Recorded(found, at) && InStep(found, at)
    ensures CodeAt(source, i, None, false, at - base)
    decreases |source|, 1, |source| + 1
  {
    hide InCode, ArgCalls, ParenText, Recorded, InStep, Usual, NameText, ChainSites;
    var (site, end) := ParenSite(source, base, name, qualified, j);
    var nested := ArgCalls(v, site.args, base + j + 1, bare);
    var (chain, next) := ChainSites(v, source, base, end, qualified);
    CallJoin(site, nested, chain, at, at);
    if site.at == at || Recorded(nested, at) {
      CallIsCode(v, source, base, i, j, bare, at);
    } else {
      ChainIsCode(v, source, base, end, qualified, at);
      NameTextInCode(v, source, i, j, at - base);
      ParenPasses(source, j, at - base);
    }
  }

  lemma {:induction false} WordIsCode(v: Vocabulary, source: string, base: nat, i: nat, bare: set<string>, at: int)
    requires Usual(v) && i < |source| && v.identStart(source[i])
    requires var found := WordSites(v, source, base, i, bare).0; Recorded(found, at) && InStep(found, at)
    ensures CodeAt(source, i, None, false, at - base)
    decreases |source|, 2, 0
  {
    hide *;
    var e := IdentEnd(v, source, i);
    var name := NameAt(v, source, i);
    var j := AfterBlanks(source, name.end, BLANKS_AND_BREAKS);
    WordByBranch(v, source, base, i, bare);
    NameTextToSite(v, source, i);
    NameTextIsPlain(v, source, i, j);
    match BranchAt(v, source, i, bare)
    case NewBranch =>
      NewShape(v, source, base, e);
      var (site, _) := NewSite(v, source, base, e).value;
      RecordedOne(site, at);
      NameTextJoin(v, source, i, e, at - base);
      NameTextIsPlain(v, source, i, at - base);
      HereIsCode(source, i, e, at - base);
    case CallBranch => CallAndChainIsCode(v, source, base, i, j, name.ident, name.qualified, bare, at);
    case BraceBranch =>
      BraceShape(source, base, name.ident, name.qualified, j);
      RecordedOne(BraceSite(source, base, name.ident, name.qualified, j).0, at);
      EqualsIsNoQuote();
      HereIsCode(source, i, j, j + 1);
    case BareBranch =>
      BareShape(v, source, base, name.ident, name.qualified, j);
      var (site, end) := BareSite(v, source, base, name.ident, name.qualified, j).value;
      RecordedOne(site, at);
      HereIsCode(source, i, j, j);
    case AssignBranch =>
      AssignShape(v, source, base, name.ident, name.qualified, j);
      var (site, end) := AssignSite(v, source, base, name.ident, name.qualified, j);
      RecordedOne(site, at);
      HereIsCode(source, i, j, j);
    case NoBranch => RecordedNone(at);
  }

  lemma EqualsIsNoQuote()
    ensures '=' !in QUOTES.delims
  {
  }

  lemma WordPasses(v: Vocabulary, source: string, base: nat, i: nat, bare: set<string>, k: int)
    requires Usual(v) && i < |source| && v.identStart(source[i])
    requires var (sites, next) := WordSites(v, source, base, i, bare); k >= next && InStep(sites, base + k)
    ensures InCode(source, i, None, false, k) <==> InCode(source, WordSites(v, source, base, i, bare).1, None, false, k)
  {
    hide *;
    var e := IdentEnd(v, source, i);
    var name := NameAt(v, source, i);
    var j := AfterBlanks(source, name.end, BLANKS_AND_BREAKS);
    WordByBranch(v, source, base, i, bare);
    NameTextToSite(v, source, i);
    match BranchAt(v, source, i, bare)
    case NewBranch =>
      NewShape(v, source, base, e);
      var j' := NewSite(v, source, base, e).value.0.at - base;
      NameTextJoin(v, source, i, e, j');
      NameTextInCode(v, source, i, j', k);
      ParenPasses(source, j', k);
    case CallBranch =>
      CallPasses(v, source, base, j, name.ident, name.qualified, bare, k);
      NameTextInCode(v, source, i, j, k);
    case BraceBranch =>
      BraceShape(source, base, name.ident, name.qualified, j);
      NameTextInCode(v, source, i, j, k);
      BracePasses(source, j, k);
    case BareBranch =>
      BareShape(v, source, base, name.ident, name.qualified, j);
      var (site, end) := BareSite(v, source, base, name.ident, name.qualified, j).value;
      ReaderPasses(v, source, base, i, j, site, end, k);
    case AssignBranch =>
      AssignShape(v, source, base, name.ident, name.qualified, j);
      var (site, end) := AssignSite(v, source, base, name.ident, name.qualified, j);
      ReaderPasses(v, source, base, i, j, site, end, k);
    case NoBranch => NameTextInCode(v, source, i, e, k);
  }

  lemma CallPasses(v: Vocabulary, source: string, base: nat, j: nat, name: string, qualified: string, bare: set<string>, k: int)
    requires Usual(v) && j < |source| && source[j] == '(' && k >= CallAndChain(v, source, base, name, qualified, j, bare).1
    ensures InCode(source, j, None, false, k) <==>
            InCode(source, CallAndChain(v, source, base, name, qualified, j, bare).1, None, false, k)
  {
    hide InCode, ArgCalls, ParenText, Usual, ChainSites;
    var (site, end) := ParenSite(source, base, name, qualified, j);
    ChainPasses(v, source, base, end, qualified, k);
    ParenPasses(source, j, k);
  }

  lemma ReaderPasses(v: Vocabulary, source: string, base: nat, i: nat, j: nat, site: CallSite, end: nat, k: int)
    requires Usual(v) && i <= j && TakenText(v, source, base, site, j, end) && NameText(v, source, i, j)
    requires k >= end && InStep([site], base + k)
    ensures InCode(source, i, None, false, k) <==> InCode(source, end, None, false, k)
  {
    hide InCode, Usual, NameText, EndsInCode;
    assert [site][0] == site;
    NameTextInCode(v, source, i, j, k);
    TakenPasses(v, source, base, site, j, end, k);
  }

  lemma {:induction false} InterpolationIsCode(v: Vocabulary, source: string, base: nat, i: nat, bare: set<string>, at: int)
    requires Usual(v) && i < |source| && source[i] != '\\' && Interpolates(source[i..])
    requires var found := ScanFrom(v, source, base, i, Some('`'), false, bare); Recorded(found, at) && InStep(found, at)
    ensures CodeAt(source, i, Some('`'), false, at - base)
    decreases |source|, 3, |source| - i - 1
  {
    hide Usual, SkipEnd, Recorded, InStep, CallsOf, Interpolates, ScanFrom, InCode;
    Opened(source, i);
    InterpolationOpens(v, source, base, i, at - base, bare);
    var inner := Inner(source, i + 2);
    var end := SkipEnd(source, i + 2);
    var found := CallsOf(v, inner, base + i + 2, bare);
    var rest := ScanFrom(v, source, base, end, Some('`'), false, bare);
    RecordedJoin(found, rest, at);
    InStepParts(found, rest, at);
    if Recorded(found, at) {
      CallsAreCode(v, inner, base + i + 2, bare, at);
    } else {
      ScanIsCode(v, source, base, end, Some('`'), false, bare, at);
    }
  }

  lemma {:induction false} ScanIsCode(v: Vocabulary, source: string, base: nat, i: nat, quote: Option<char>, escape: bool,
    bare: set<string>, at: int)
    requires Usual(v) && i <= |source|
    requires var found := ScanFrom(v, source, base, i, quote, escape, bare); Recorded(found, at) && InStep(found, at)
    ensures CodeAt(source, i, quote, escape, at - base)
    decreases |source|, 3, |source| - i
  {
    hide Usual, SkipEnd, Inner, WordSites, IdentEnd, Recorded, InStep, CallsOf, Interpolates;
    RecordedNone(at);
    var ch := source[i];
    if quote == Some('`') && !escape && ch != '\\' && Interpolates(source[i..]) {
      InterpolationIsCode(v, source, base, i, bare, at);
    } else if quote.None? && ch !in QUOTES.delims && ch != '\n' && IdentEnd(v, source, i) > i {
      var (sites, next) := WordSites(v, source, base, i, bare);
      var rest := ScanFrom(v, source, base, next, None, false, bare);
      RecordedJoin(sites, rest, at);
      InStepParts(sites, rest, at);
      InCodeIgnoresEscape(source, i, escape, at - base);
      if Recorded(sites, at) {
        WordIsCode(v, source, base, i, bare, at);
      } else {
        ScanIsCode(v, source, base, next, None, false, bare, at);
        WordPasses(v, source, base, i, bare, at - base);
      }
    } else {
      var left := !escape && ch != '\\' && quote == Some(ch);
      var quote' := if quote.None? then (if ch in QUOTES.delims then Some(ch) else None) else if left then None else quote;
      ScanIsCode(v, source, base, i + 1, quote', quote.Some? && !escape && ch == '\\', bare, at);
    }
  }

  lemma InCodeIgnoresEscape(source: string, i: nat, escape: bool, k: int)
    requires i <= |source|
    ensures InCode(source, i, None, escape, k) <==> InCode(source, i, None, false, k)
  {
  }

  /** Every recorded position is code: nothing is taken from a string literal. */
  lemma {:induction false} CallsAreCode(v: Vocabulary, source: string, base: nat, bare: set<string>, at: int)
    requires Usual(v)
    requires var found := CallsOf(v, source, base, bare); Recorded(found, at) && InStep(found, at)
    ensures CodeAt(source, 0, None, false, at - base)
    decreases |source|, 4, 0
  {
    hide InCode, Recorded, InStep, ScanFrom, Usual;
    ScanIsCode(v, source, base, 0, None, false, bare, at);
  }
}
