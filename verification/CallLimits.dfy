/**
 Texts the call scanner misses and misreads, and exactly which right-hand sides make it misread what follows.
 */
module CallLimits {
  import opened Braces
  import opened CallCompleteness
  import opened CallSafety
  import opened CallSites
  import opened CallSteps
  import opened CallTexts
  import opened CodePositions
  import opened CommentLexer
  import opened Options
  import opened Texts

  // ----- what the conditions are for ------------------------------------------------------------------------------

  const ASSIGNMENT := "a.b=f()"
  const MISREAD := "a.b=`${`;x(`}`"

  lemma AssignmentText(v: Vocabulary, text: string)
    requires Usual(v) && v.identStart('a') && v.identStart('b')
    requires |text| > 4 && text[..4] == "a.b=" && text[4] !in "{=>"
    ensures text[0] == 'a' && text[1] == '.' && text[2] == 'b' && text[3] == '='
    ensures IdentEnd(v, text, 0) == 1 && IdentEnd(v, text, 2) == 3 && text[0..1] == "a" && text[2..3] == "b"
    ensures forall k :: 1 <= k <= 3 ==> AfterBlanks(text, k, BLANKS_AND_BREAKS) == k
  {
    var start := text[..4];
    assert text[0] == start[0] && text[1] == start[1] && text[2] == start[2] && text[3] == start[3];
  }

  lemma AssignmentMarks(text: string)
    requires |text| > 4 && text[1] == '.' && text[3] == '=' && text[4] !in "{=>" && text[2] !in "=!<>"
    ensures Separator(text, 1) == Some((".", 1)) && Separator(text, 3) == None
    ensures !StartsAt(text, 3, "={") && !IsComparisonOrArrow(text, 3)
  {
    assert text[1..][0] == '.' && text[3..][0] == '=' && text[3..][1] == text[4];
  }

  lemma AssignmentName(v: Vocabulary, text: string)
    requires Usual(v) && v.identStart('a') && v.identStart('b')
    requires |text| > 4 && text[..4] == "a.b=" && text[4] !in "{=>"
    ensures IdentEnd(v, text, 0) == 1 && MemberChain(v, text, "a", "a", 1) == Name("a.b", "b", 3) && text[0..1] == "a"
    ensures AfterBlanks(text, 3, BLANKS_AND_BREAKS) == 3
    ensures !StartsAt(text, 3, "={") && !IsComparisonOrArrow(text, 3)
  {
    hide Separator, AfterBlanks, IdentEnd, Usual, StartsAt, IsComparisonOrArrow;
    AssignmentText(v, text);
    AssignmentMarks(text);
    assert "a" + "." + "b" == "a.b";
    assert AfterBlanks(text, 2, BLANKS_AND_BREAKS) == 2;
    assert MemberChain(v, text, "a.b", "b", 3) == Name("a.b", "b", 3);
  }

  /** The scan of a text that begins with a property assignment records the right-hand side and goes on behind it. */
  lemma AssignmentFirst(v: Vocabulary, text: string, at: int)
    requires Usual(v) && v.identStart('a') && v.identStart('b')
    requires |text| > 4 && text[..4] == "a.b=" && text[4] !in "{=>"
    ensures var found, end := CallsOf(v, text, 0, {}), BreakFrom(text, 4, Reader(None, false, 0));
            Recorded(found, at) <==> at == 3 || Recorded(ScanFrom(v, text, 0, end, None, false, {}), at)
  {
    AssignmentName(v, text);
    AssignmentWord(v, text);
    hide WordSites, Usual, Recorded, IdentEnd, BreakFrom;
    var (sites, next) := WordSites(v, text, 0, 0, {});
    assert text[0] == text[..4][0];
    RecordedOne(sites[0], at);
    assert sites == [sites[0]];
    RecordedJoin(sites, ScanFrom(v, text, 0, next, None, false, {}), at);
  }

  lemma AssignmentWord(v: Vocabulary, text: string)
    requires Usual(v) && v.identStart('a') && v.identStart('b')
    requires |text| > 4 && text[..4] == "a.b=" && text[4] !in "{=>"
    ensures text[0] == 'a'
    ensures var (sites, next) := WordSites(v, text, 0, 0, {});
            |sites| == 1 && sites[0].at == 3 && next == BreakFrom(text, 4, Reader(None, false, 0))
  {
    AssignmentName(v, text);
    assert text[0] == text[..4][0] && text[3] == text[..4][3];
    assert Contains("a.b", ".") by { assert "a.b"[1..] == ".b"; }
    hide Usual, IdentEnd, MemberChain, AfterBlanks, BreakFrom, StartsAt, IsComparisonOrArrow, Contains, NewSite, StripLeft,
      StripRight;
    assert AssignSite(v, text, 0, "b", "a.b", 3).0.at == 3;
  }

  /** The right-hand side of a property assignment is recorded as text; a call in it is not found. */
  lemma AssignmentHidesCall(v: Vocabulary)
    requires Usual(v) && v.identStart('a') && v.identStart('b') && v.identStart('f')
    requires v.lower("f") !in v.nonCall && v.lower("") !in v.declarations
    ensures Wanted(v, ASSIGNMENT, 4, 5) && InCode(ASSIGNMENT, 0, None, false, 5)
    ensures !Recorded(CallsOf(v, ASSIGNMENT, 0, {}), 5)
  {
    var text := ASSIGNMENT;
    AssignmentIsWanted(v);
    AssignmentEnd();
    RecordedNone(5);
    hide Wanted, InCode, CallsOf, Usual, Recorded, BreakFrom;
    assert text[..4] == "a.b=";
    AssignmentFirst(v, text, 5);
    assert ScanFrom(v, text, 0, 7, None, false, {}) == [];
  }

  lemma AssignmentEnd()
    ensures BreakFrom(ASSIGNMENT, 4, Reader(None, false, 0)) == 7
  {
    assert BreakFrom(ASSIGNMENT, 6, Reader(None, false, 1)) == 7;
    assert BreakFrom(ASSIGNMENT, 5, Reader(None, false, 0)) == 7;
  }

  lemma AssignmentIsWanted(v: Vocabulary)
    requires Usual(v) && v.identStart('a') && v.identStart('b') && v.identStart('f')
    requires v.lower("f") !in v.nonCall && v.lower("") !in v.declarations
    ensures Wanted(v, ASSIGNMENT, 4, 5) && InCode(ASSIGNMENT, 0, None, false, 5)
  {
    OneLetterCall(v, ASSIGNMENT, 4);
  }

  /**
   The reader of a right-hand side stops at the semicolon in the inner template, and the rest of it is scanned as code:
   a call is recorded from inside a string.
   */
  lemma MisreadTemplate(v: Vocabulary)
    requires Usual(v) && v.identStart('a') && v.identStart('b') && v.identStart('x')
    requires v.lower("x") !in v.nonCall && v.lower("") !in v.declarations
    ensures Recorded(CallsOf(v, MISREAD, 0, {}), 10) && !InCode(MISREAD, 0, None, false, 10)
  {
    hide *;
    MisreadEnd(v);
    MisreadCall(v);
    MisreadString();
  }

  lemma MisreadEnd(v: Vocabulary)
    ensures BreakFrom(MISREAD, 4, Reader(None, false, 0)) == 8
  {
    var text := MISREAD;
    var inside := Reader(Some('`'), false, 0);
    assert BreakFrom(text, 8, Reader(None, false, 0)) == 8;
    assert BreakFrom(text, 7, inside) == 8;
    assert BreakFrom(text, 6, inside) == 8;
    assert BreakFrom(text, 5, inside) == 8;
  }

  lemma MisreadCall(v: Vocabulary)
    requires Usual(v) && v.identStart('a') && v.identStart('b') && v.identStart('x')
    requires v.lower("x") !in v.nonCall && v.lower("") !in v.declarations
    ensures Recorded(CallsOf(v, MISREAD, 0, {}), 10)
  {
    MisreadStart();
    MisreadEnd(v);
    MisreadWord(v);
    MisreadSemicolon(v);
    hide *;
    var text := MISREAD;
    AssignmentFirst(v, text, 10);
    var (sites, next) := WordSites(v, text, 0, 9, {});
    RecordedJoin(sites, ScanFrom(v, text, 0, next, None, false, {}), 10);
  }

  lemma MisreadStart()
    ensures |MISREAD| == 14 && MISREAD[..4] == "a.b=" && MISREAD[4] !in "{=>" && MISREAD[9] == 'x'
  {
  }

  lemma MisreadSemicolon(v: Vocabulary)
    requires Usual(v) && v.identStart('x')
    ensures var (sites, next) := WordSites(v, MISREAD, 0, 9, {});
            ScanFrom(v, MISREAD, 0, 8, None, false, {}) == sites + ScanFrom(v, MISREAD, 0, next, None, false, {})
  {
    hide WordSites;
    assert !v.identPart(';') && !v.identStart(';');
  }

  lemma MisreadWord(v: Vocabulary)
    requires Usual(v) && v.identStart('x')
    requires v.lower("x") !in v.nonCall && v.lower("") !in v.declarations
    ensures Recorded(WordSites(v, MISREAD, 0, 9, {}).0, 10)
  {
    MisreadIsWanted(v);
    hide *;
    WantedIsRecorded(v, MISREAD, 9, 10);
  }

  /** A wanted name that does not begin with `new` records its parenthesis. */
  lemma WantedIsRecorded(v: Vocabulary, text: string, h: nat, k: nat)
    requires Usual(v) && Wanted(v, text, h, k) && text[h] != 'n'
    ensures Recorded(WordSites(v, text, 0, h, {}).0, k)
  {
    WantedBranch(v, text, h, k);
    hide *;
    WordByBranch(v, text, 0, h, {});
    var name := NameAt(v, text, h);
    OwnSite(v, text, name.ident, name.qualified, k);
  }

  lemma WantedBranch(v: Vocabulary, text: string, h: nat, k: nat)
    requires Usual(v) && Wanted(v, text, h, k) && text[h] != 'n'
    ensures k < |text| && text[k] == '(' && v.identStart(text[h]) && BranchAt(v, text, h, {}) == CallBranch
    ensures AfterBlanks(text, NameAt(v, text, h).end, BLANKS_AND_BREAKS) == k
  {
    hide NewSite, AfterBlanks, Declared, MemberChain, IsMember, Contains, NameText;
    WantedBounds(v, text, h, k);
    var e := IdentEnd(v, text, h);
    assert text[h..e][0] == text[h];
  }

  lemma OwnSite(v: Vocabulary, text: string, name: string, qualified: string, j: nat)
    requires j < |text| && text[j] == '('
    ensures Recorded(CallAndChain(v, text, 0, name, qualified, j, {}).0, j)
  {
    hide Recorded, ArgCalls, ChainSites, ParenText;
    var (site, end) := ParenSite(text, 0, name, qualified, j);
    CallJoin(site, ArgCalls(v, site.args, j + 1, {}), ChainSites(v, text, 0, end, qualified).0, j, j);
  }

  lemma MisreadIsWanted(v: Vocabulary)
    requires Usual(v) && v.identStart('x')
    requires v.lower("x") !in v.nonCall && v.lower("") !in v.declarations
    ensures Wanted(v, MISREAD, 9, 10) && MISREAD[9] == 'x'
  {
    OneLetterCall(v, MISREAD, 9);
  }

  /** A letter behind a mark that is no blank, and a parenthesis. */
  lemma OneLetterCall(v: Vocabulary, text: string, h: nat)
    requires Usual(v) && 0 < h < |text| - 1 && text[h + 1] == '(' && v.identStart(text[h])
    requires text[h - 1] in STOPS && v.lower([text[h]]) !in v.nonCall && v.lower("") !in v.declarations
    ensures Wanted(v, text, h, h + 1)
  {
    assert text[h - 1] in MARKS;
    assert text[h..h + 1] == [text[h]];
    assert IdentEnd(v, text, h) == h + 1;
    assert BlanksStart(text, h) == h && WordStart(v, text, h) == h;
    assert text[h..h] == "";
    PlainCall(v, text, h, h + 1);
  }

  lemma MisreadPlain()
    ensures Interpolates(MISREAD[5..]) && forall i :: 8 <= i <= 11 ==> !Interpolates(MISREAD[i..])
  {
    assert MISREAD[5..][0] == '$' && MISREAD[5..][1] == '{';
    forall i | 8 <= i <= 11 ensures !Interpolates(MISREAD[i..]) { assert MISREAD[i..][0] == MISREAD[i]; }
  }

  /** The interpolation ends at the brace behind the inner template. */
  lemma MisreadBraces()
    ensures SkipEnd(MISREAD, 7) == 13
  {
    hide InCode, BraceEnd, SkipEnd, Lex, Interpolates;
    MisreadPlain();
    SkipEndIsBraceEnd(MISREAD, 7);
    BraceEndNext(MISREAD, 7, None, false, 1);
    BraceEndNext(MISREAD, 8, Some('`'), false, 1);
    BraceEndNext(MISREAD, 9, Some('`'), false, 1);
    BraceEndNext(MISREAD, 10, Some('`'), false, 1);
    BraceEndNext(MISREAD, 11, Some('`'), false, 1);
    BraceEndNext(MISREAD, 12, None, false, 1);
  }

  lemma MisreadString()
    ensures !InCode(MISREAD, 0, None, false, 10)
  {
    hide InCode, SkipEnd, Lex, Interpolates;
    MisreadPlain();
    MisreadBraces();
    CodeGoesOn(MISREAD, 0, 4, 10);
    InCodeNext(MISREAD, 4, None, false, 10);
    InCodeOpens(MISREAD, 5, 10);
    var inner := Inner(MISREAD, 7);
    assert inner == "`;x(`";
    InnerNext(inner);
    StringGoesOn(inner, 1, '`', false, 3);
  }

  lemma InnerNext(inner: string)
    requires |inner| > 0 && inner[0] == '`'
    ensures InCode(inner, 0, None, false, 3) <==> InCode(inner, 1, Some('`'), false, 3)
  {
    hide SkipEnd, Inner;
  }

  // ----- exactly when a right-hand side keeps the scan in step ------------------------------------------------------

  /** An argument text the reader takes as a whole: no break in it, no space around it, no brace or comparison before it. */
  predicate ArgumentText(v: Vocabulary, text: string) {
    && text != "" && text[0] !in "{=>" && !v.space(text[0]) && !v.space(text[|text| - 1])
    && BreakFrom(text, 0, UNREAD) == |text| && ReaderAt(text, 0, UNREAD, |text|) == UNREAD
  }

  /** A reader that takes a whole text takes it wherever it stands, if a break follows. */
  lemma {:induction false} TakesWhole(source: string, lo: nat, hi: nat, i: nat, r: Reader)
    requires lo <= i <= hi < |source| && source[hi] in ")]};\n"
    requires BreakFrom(source[lo..hi], i - lo, r) == hi - lo && ReaderAt(source[lo..hi], i - lo, r, hi - lo) == UNREAD
    ensures BreakFrom(source, i, r) == hi
    decreases hi - i
  {
    if i < hi {
      assert source[lo..hi][i - lo] == source[i];
      TakesWhole(source, lo, hi, i + 1, Read(r, source[i]));
    }
  }

  lemma NotStripped(v: Vocabulary, source: string, lo: nat, hi: nat)
    requires lo < hi <= |source| && !v.space(source[lo]) && !v.space(source[hi - 1])
    ensures StripLeft(v, source, lo, hi) == lo && StripRight(v, source, lo, hi) == hi
  {
  }

  function Assigned(text: string, rest: string): string {
    "a.b=" + text + rest
  }

  lemma AssignedParts(text: string, rest: string)
    requires text != ""
    ensures var source := Assigned(text, rest);
            && |source| == 4 + |text| + |rest| && source[..4] == "a.b=" && source[4..4 + |text|] == text
            && source[4] == text[0] && source[3 + |text|] == text[|text| - 1] && source[4 + |text|..] == rest
            && (forall p :: 0 <= p < |rest| ==> source[4 + |text| + p] == rest[p])
            && (forall p :: 0 <= p < 4 ==> source[p] !in QUOTES.delims)
  {
    var source := Assigned(text, rest);
    assert source[0] == 'a' && source[1] == '.' && source[2] == 'b' && source[3] == '=';
  }

  /** What is recorded of an assignment of an argument text: the text, then what the scan records behind it. */
  lemma AssignedSites(v: Vocabulary, text: string, rest: string)
    requires Usual(v) && v.identStart('a') && v.identStart('b') && ArgumentText(v, text) && Breaking(rest)
    ensures var source := Assigned(text, rest);
            && 4 < |source|
            && var site := AssignSite(v, source, 0, "b", "a.b", 3).0;
               && site.kind == Assign && site.at == 3 && site.args == text
               && CallsOf(v, source, 0, {}) == [site] + ScanFrom(v, source, 0, 4 + |text|, None, false, {})
  {
    var source := Assigned(text, rest);
    AssignedParts(text, rest);
    TakesWhole(source, 4, 4 + |text|, 4, UNREAD);
    NotStripped(v, source, 4, 4 + |text|);
    AssignmentSite(v, source);
    hide WordSites, Usual, BreakFrom, StripLeft, StripRight, ReaderAt, IdentEnd;
    AssignmentName(v, source);
    assert source[0] == source[..4][0];
  }

  lemma AssignmentSite(v: Vocabulary, text: string)
    requires Usual(v) && v.identStart('a') && v.identStart('b')
    requires |text| > 4 && text[..4] == "a.b=" && text[4] !in "{=>"
    ensures text[0] == 'a'
    ensures var (site, end) := AssignSite(v, text, 0, "b", "a.b", 3); WordSites(v, text, 0, 0, {}) == ([site], end)
  {
    AssignmentName(v, text);
    assert text[0] == text[..4][0] && text[3] == text[..4][3];
    assert Contains("a.b", ".") by { assert "a.b"[1..] == ".b"; }
    hide Usual, IdentEnd, MemberChain, AfterBlanks, BreakFrom, StartsAt, IsComparisonOrArrow, Contains, NewSite, StripLeft,
      StripRight, AssignSite;
  }

  /** Braces record nothing. */
  lemma {:induction false} BracesAreSkipped(v: Vocabulary, source: string, i: nat, n: nat)
    requires Usual(v) && i + n <= |source| && forall p :: i <= p < i + n ==> source[p] == '}'
    ensures ScanFrom(v, source, 0, i, None, false, {}) == ScanFrom(v, source, 0, i + n, None, false, {})
    decreases n
  {
    hide *;
    if n > 0 {
      BraceIsNoName(v, source, i);
      NamelessStep(v, source, 0, i, {});
      BracesAreSkipped(v, source, i + 1, n - 1);
    }
  }

  lemma BraceIsNoName(v: Vocabulary, source: string, i: nat)
    requires Usual(v) && i < |source| && source[i] == '}'
    ensures source[i] !in QUOTES.delims && IdentEnd(v, source, i) == i
  {
    assert source[i] in MARKS;
  }

  lemma NameIsScanned(v: Vocabulary, source: string, h: nat, k: nat)
    requires Usual(v) && Wanted(v, source, h, k) && source[h] != 'n'
    ensures Recorded(ScanFrom(v, source, 0, h, None, false, {}), k)
  {
    WantedBounds(v, source, h, k);
    WantedIsRecorded(v, source, h, k);
    ScanWord(v, source, h);
    hide *;
    var (sites, next) := WordSites(v, source, 0, h, {});
    RecordedJoin(sites, ScanFrom(v, source, 0, next, None, false, {}), k);
  }

  lemma ScanWord(v: Vocabulary, source: string, h: nat)
    requires h < |source| && v.identStart(source[h]) && source[h] !in MARKS
    ensures var (sites, next) := WordSites(v, source, 0, h, {});
            ScanFrom(v, source, 0, h, None, false, {}) == sites + ScanFrom(v, source, 0, next, None, false, {})
  {
    hide WordSites;
  }

  /** Behind a right-hand side that does not end in code a call is recorded that is not code. */
  lemma MisreadBehind(v: Vocabulary, text: string)
    requires Usual(v) && v.identStart('a') && v.identStart('b') && v.identStart('x')
    requires v.lower("x") !in v.nonCall && v.lower("") !in v.declarations
    requires ArgumentText(v, text) && !EndsInCode(text, 0, None, false)
    ensures var n := |text| + 1;
            var source := Assigned(text, Closers(n) + "x()");
            Recorded(CallsOf(v, source, 0, {}), 5 + |text| + n) && !InCode(source, 0, None, false, 5 + |text| + n)
  {
    hide *;
    var n := |text| + 1;
    var rest := Closers(n) + "x()";
    var source := Assigned(text, rest);
    var hi := 4 + |text|;
    TextIsNotEmpty(v, text);
    AssignedParts(text, rest);
    ClosersBreak(text, n);
    ClosersAre(n);
    AssignedSites(v, text, rest);
    var site := AssignSite(v, source, 0, "b", "a.b", 3).0;
    BracesAreSkipped(v, source, hi, n);
    BraceIsStop();
    OneLetterCall(v, source, hi + n);
    NameIsScanned(v, source, hi + n, hi + n + 1);
    RecordedJoin([site], ScanFrom(v, source, 0, hi, None, false, {}), hi + n + 1);
    CallIsClosed(source, text, n);
    CodeGoesOn(source, 0, 4, hi + n + 1);
    CallBehindIsNotCode(source, 4, hi, n, 4, None, false);
  }

  lemma TextIsNotEmpty(v: Vocabulary, text: string)
    requires ArgumentText(v, text)
    ensures text != ""
  {
  }

  lemma BraceIsStop()
    ensures '}' in STOPS
  {
  }

  lemma ClosersAre(n: nat)
    requires n > 0
    ensures var rest := Closers(n) + "x()";
            && |rest| == n + 3 && rest[n] == 'x' && rest[n + 1] == '(' && rest[n + 2] == ')' && [rest[n]] == "x"
            && forall p :: 0 <= p < n ==> rest[p] == '}'
  {
  }

  lemma CallIsClosed(source: string, text: string, n: nat)
    requires text != "" && n > 0 && source == Assigned(text, Closers(n) + "x()")
    ensures ClosedCall(source, 4 + |text|, n)
  {
    AssignedParts(text, Closers(n) + "x()");
    ClosersAre(n);
    var rest := Closers(n) + "x()";
    assert forall p :: 4 + |text| <= p < |source| ==> source[p] == rest[p - 4 - |text|];
  }

  /** The sites behind the assignment lie behind it. */
  lemma InStepBehindAssignment(v: Vocabulary, text: string, rest: string, p: int)
    requires Usual(v) && v.identStart('a') && v.identStart('b') && ArgumentText(v, text) && Breaking(rest)
    requires EndsInCode(text, 0, None, false) && NoInterpolation(rest)
    ensures InStep(CallsOf(v, Assigned(text, rest), 0, {}), p)
  {
    hide CallsOf, NoInterpolation, EndsInCode, Usual, ScanFrom, ArgumentText, Assigned, ReadFrom;
    var source, hi := Assigned(text, rest), 4 + |text|;
    TextIsNotEmpty(v, text);
    AssignedParts(text, rest);
    AssignedSites(v, text, rest);
    var site := AssignSite(v, source, 0, "b", "a.b", 3).0;
    var behind := ScanFrom(v, source, 0, hi, None, false, {});
    ScanIsGood(v, source, 0, hi, None, false, {});
    ScanIsReady(v, source, 0, hi, None, false, {});
    var found := [site] + behind;
    forall m | 0 <= m < |found| && found[m].kind in {Bare, Assign} && found[m].end <= p < found[m].limit
      ensures EndsInCode(found[m].args, 0, None, false)
    {
      if m > 0 {
        var s := behind[m - 1];
        assert found[m] == s && Located(source, 0, s) && Tame(s);
        PieceHasNoInterpolation(rest, s.from - hi, s.from - hi + |s.args|);
        SliceOfSlice(source, hi, |source|, s.from, s.from + |s.args|);
        assert source[hi..|source|] == rest;
      }
    }
  }

  /**
   The right-hand side of an assignment keeps the scan in step exactly if it ends in code: then, whatever the reader stops
   before, only code is recorded as long as nothing behind opens an interpolation; otherwise some text behind it makes
   the scan record a call inside a string.
   */
  lemma RightHandSideIff(v: Vocabulary, text: string)
    requires Usual(v) && v.identStart('a') && v.identStart('b') && v.identStart('x')
    requires v.lower("x") !in v.nonCall && v.lower("") !in v.declarations && ArgumentText(v, text)
    ensures EndsInCode(text, 0, None, false) <==>
            forall rest: string, p: nat :: Breaking(rest) && NoInterpolation(rest) ==>
              Recorded(CallsOf(v, Assigned(text, rest), 0, {}), p) ==> InCode(Assigned(text, rest), 0, None, false, p)
  {
    hide *;
    if EndsInCode(text, 0, None, false) {
      forall rest: string, p: nat | Breaking(rest) && NoInterpolation(rest) && Recorded(CallsOf(v, Assigned(text, rest), 0, {}), p)
        ensures InCode(Assigned(text, rest), 0, None, false, p)
      {
        InStepBehindAssignment(v, text, rest, p);
        CallsAreCode(v, Assigned(text, rest), 0, {}, p);
        CodeAtIs(Assigned(text, rest), p);
      }
    } else {
      MisreadBehind(v, text);
      ClosersBreak(text, |text| + 1);
      ClosersOpenNothing(|text| + 1);
    }
  }

  lemma CodeAtIs(source: string, p: int)
    requires CodeAt(source, 0, None, false, p)
    ensures InCode(source, 0, None, false, p)
  {
  }

  lemma ClosersOpenNothing(n: nat)
    requires n > 0
    ensures NoInterpolation(Closers(n) + "x()")
  {
    ClosersAre(n);
    var rest := Closers(n) + "x()";
    forall p | 0 <= p < |rest| ensures !Interpolates(rest[p..]) {
      assert rest[p..][0] == rest[p];
      assert rest[p] == '}' || p >= n;
    }
  }
}
