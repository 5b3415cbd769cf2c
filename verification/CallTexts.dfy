/**
 The stretches of text the call scanner reads at once: names with their members, parenthesised arguments, and the texts
 it takes as they stand.  Reading them keeps the scan in step with the text, with one exception: the reader of bare
 arguments and right-hand sides knows no interpolation and may stop inside one.
 */
module CallTexts {
  import opened Braces
  import opened CallSites
  import opened CodePositions
  import opened CommentLexer
  import opened Options

  const MARKS := {'"', '\'', '`', '(', ')', '[', ']', '{', '}', '=', ';', '\n', ' ', '\t', '?', '.', ':', '-', '>'}

  /** Marks that no name, and nothing between the parts of a name, holds. */
  const STOPS := {'"', '\'', '`', '(', ')', '[', ']', '{', '}', '=', ';'}

  /** No mark and no space belongs to a word, and neither a quote nor a bracket is a space. */
  ghost predicate Usual(v: Vocabulary) {
    && (forall c: char :: v.identStart(c) ==> v.identPart(c))
    && (forall c: char :: c in MARKS ==> !v.identPart(c) && !v.alnum(c))
    && (forall c: char :: c in QUOTES.delims || c in "([{)]}" ==> !v.space(c))
    && (forall c: char :: v.space(c) ==> !v.identPart(c))
  }

  /** The name that begins at `i`, with its members. */
  function NameAt(v: Vocabulary, source: string, i: nat): (name: Name)
    requires i <= |source|
    ensures i <= name.end <= |source|
  {
    var e := IdentEnd(v, source, i);
    MemberChain(v, source, source[i..e], source[i..e], e)
  }

  /** A word begins at `h`, and the name it heads is followed by the parenthesis at `k`, blanks and line breaks aside. */
  predicate HeadOf(v: Vocabulary, source: string, h: nat, k: nat) {
    && h < k < |source| && source[k] == '('
    && v.identStart(source[h]) && (h > 0 ==> !v.identPart(source[h - 1]))
    && AfterBlanks(source, NameAt(v, source, h).end, BLANKS_AND_BREAKS) == k
  }

  /** The name calls: its head introduces no declaration, and its last part is no keyword, or is a member. */
  predicate Wanted(v: Vocabulary, source: string, h: nat, k: nat) {
    && HeadOf(v, source, h, k) && !Declared(v, source, h)
    && (v.lower(NameAt(v, source, h).ident) in v.nonCall ==> IsMember(NameAt(v, source, h).qualified))
  }

  /** Behind a line break inside the name nothing but blanks and line breaks comes before the parenthesis. */
  predicate OneLine(source: string, h: nat, k: nat)
    requires k <= |source|
  {
    forall p, q :: h <= p <= q < k && source[p] == '\n' ==> source[q] in BLANKS_AND_BREAKS
  }

  /** A single word from `a` on, then blanks and line breaks, then the parenthesis at `k`. */
  predicate CallWord(v: Vocabulary, source: string, a: nat, k: nat) {
    && a < k < |source| && source[k] == '('
    && v.identStart(source[a]) && (a > 0 ==> !v.identPart(source[a - 1]))
    && IdentEnd(v, source, a) <= k
    && forall p :: IdentEnd(v, source, a) <= p < k ==> source[p] in BLANKS_AND_BREAKS
  }

  // ----- what lies between a name and its parenthesis -----------------------------------------------------------

  /** Characters of names, blanks and member separators. */
  predicate NameText(v: Vocabulary, source: string, lo: nat, hi: nat) {
    forall p :: lo <= p < hi && p < |source| ==> v.identPart(source[p]) || source[p] in " \t\n?.:->"
  }

  lemma NameTextIsPlain(v: Vocabulary, source: string, lo: nat, hi: nat)
    requires Usual(v) && hi <= |source| && NameText(v, source, lo, hi)
    ensures forall p :: lo <= p < hi ==> source[p] !in QUOTES.delims && source[p] != '('
  {
    forall p | lo <= p < hi ensures source[p] !in QUOTES.delims && source[p] != '(' {
      if source[p] in MARKS { assert source[p] in " \t\n?.:->"; }
    }
  }

  lemma BlanksAreNameText(v: Vocabulary, source: string, i: nat, blanks: string)
    requires i <= |source| && (blanks == BLANKS || blanks == BLANKS_AND_BREAKS)
    ensures NameText(v, source, i, AfterBlanks(source, i, blanks))
  {
  }

  lemma IdentIsNameText(v: Vocabulary, source: string, i: nat)
    requires Usual(v) && i <= |source|
    ensures NameText(v, source, i, IdentEnd(v, source, i))
  {
  }

  lemma SeparatorIsNameText(v: Vocabulary, source: string, i: nat)
    ensures var sep := Separator(source, i); sep.Some? ==> NameText(v, source, i, i + sep.value.1)
  {
    var sep := Separator(source, i);
    if sep.Some? {
      forall p | i <= p < i + sep.value.1 ensures source[p] in "?.:->" {
        assert source[p] == source[i..][p - i];
      }
    }
  }

  lemma NameTextJoin(v: Vocabulary, source: string, lo: nat, mid: nat, hi: nat)
    requires NameText(v, source, lo, mid) && NameText(v, source, mid, hi)
    ensures NameText(v, source, lo, hi)
  {
  }

  lemma {:induction false} MembersAreNameText(v: Vocabulary, source: string, qualified: string, ident: string, j: nat)
    requires Usual(v) && j <= |source|
    ensures NameText(v, source, j, MemberChain(v, source, qualified, ident, j).end)
    decreases |source| - j
  {
    hide NameText, Usual, AfterBlanks, IdentEnd, Separator;
    var k := AfterBlanks(source, j, BLANKS_AND_BREAKS);
    BlanksAreNameText(v, source, j, BLANKS_AND_BREAKS);
    var sep := Separator(source, k);
    if sep.Some? {
      SeparatorIsNameText(v, source, k);
      var m := AfterBlanks(source, k + sep.value.1, BLANKS_AND_BREAKS);
      BlanksAreNameText(v, source, k + sep.value.1, BLANKS_AND_BREAKS);
      NameTextJoin(v, source, j, k, k + sep.value.1);
      NameTextJoin(v, source, j, k + sep.value.1, m);
      var e := IdentEnd(v, source, m);
      if e != m {
        IdentIsNameText(v, source, m);
        NameTextJoin(v, source, j, m, e);
        var end := MemberChain(v, source, qualified + sep.value.0 + source[m..e], source[m..e], e).end;
        MembersAreNameText(v, source, qualified + sep.value.0 + source[m..e], source[m..e], e);
        NameTextJoin(v, source, j, e, end);
      }
    }
  }

  /** From an identifier to where its chain of members ends. */
  lemma WordIsNameText(v: Vocabulary, source: string, i: nat)
    requires Usual(v) && i <= |source|
    ensures var e := IdentEnd(v, source, i);
            var end := MemberChain(v, source, source[i..e], source[i..e], e).end;
            NameText(v, source, i, e) && NameText(v, source, i, AfterBlanks(source, end, BLANKS_AND_BREAKS))
  {
    hide NameText, Usual, AfterBlanks, IdentEnd, MemberChain;
    var e := IdentEnd(v, source, i);
    var end := MemberChain(v, source, source[i..e], source[i..e], e).end;
    IdentIsNameText(v, source, i);
    MembersAreNameText(v, source, source[i..e], source[i..e], e);
    NameTextJoin(v, source, i, e, end);
    BlanksAreNameText(v, source, end, BLANKS_AND_BREAKS);
    NameTextJoin(v, source, i, end, AfterBlanks(source, end, BLANKS_AND_BREAKS));
  }

  /** From the end of a call to the parenthesis of the next one in the chain. */
  lemma LinkIsNameText(v: Vocabulary, source: string, i: nat)
    requires Usual(v) && i <= |source|
    ensures var link := NextLink(v, source, i); link.Some? ==> NameText(v, source, i, link.value.2)
  {
    hide NameText, Usual, AfterBlanks, IdentEnd, StartsAt, ChainLink;
    var dot := ChainLink(source, i);
    ChainLinkIsNameText(v, source, i);
    var dots := if StartsAt(source, dot, "?.") then 2 else if StartsAt(source, dot, ".") then 1 else 0;
    DotsAreNameText(v, source, dot);
    if NextLink(v, source, i).Some? {
      var m := AfterBlanks(source, dot + dots, BLANKS);
      var e := IdentEnd(v, source, m);
      BlanksAreNameText(v, source, dot + dots, BLANKS);
      IdentIsNameText(v, source, m);
      BlanksAreNameText(v, source, e, BLANKS);
      NameTextJoin(v, source, i, dot, dot + dots);
      NameTextJoin(v, source, i, dot + dots, m);
      NameTextJoin(v, source, i, m, e);
      NameTextJoin(v, source, i, e, AfterBlanks(source, e, BLANKS));
    }
  }

  lemma DotsAreNameText(v: Vocabulary, source: string, i: nat)
    ensures StartsAt(source, i, "?.") ==> i + 2 <= |source| && NameText(v, source, i, i + 2)
    ensures StartsAt(source, i, ".") ==> i + 1 <= |source| && NameText(v, source, i, i + 1)
  {
    if StartsAt(source, i, "?.") {
      assert source[i] == source[i..][0] && source[i + 1] == source[i..][1];
    }
  }

  lemma ChainLinkIsNameText(v: Vocabulary, source: string, i: nat)
    requires i <= |source|
    ensures NameText(v, source, i, ChainLink(source, i))
  {
    hide AfterBlanks, StartsAt;
    var j := AfterBlanks(source, i, BLANKS);
    BlanksAreNameText(v, source, i, BLANKS);
    if j < |source| && source[j] == '\n' {
      BlanksAreNameText(v, source, j + 1, BLANKS);
    }
  }

  /** Name text is code throughout. */
  lemma NameTextInCode(v: Vocabulary, source: string, i: nat, m: nat, k: int)
    requires Usual(v) && i <= m <= |source| && NameText(v, source, i, m) && m <= k
    ensures InCode(source, i, None, false, k) <==> InCode(source, m, None, false, k)
  {
    hide InCode;
    NameTextIsPlain(v, source, i, m);
    CodeGoesOn(source, i, m, k);
  }

  // ----- argument texts -----------------------------------------------------------------------------------------

  /** Behind a parenthesised argument list the text is code again. */
  lemma ParenPasses(source: string, j: nat, k: int)
    requires j < |source| && source[j] == '('
    requires var (args, end) := ParenText(source, j); k >= end
    ensures var (args, end) := ParenText(source, j); InCode(source, j, None, false, k) <==> InCode(source, end, None, false, k)
  {
    if ClosingParen(source, j, None, false, 0).Some? {
      hide InCode, ClosingParen;
      ClosingPasses(source, j, None, false, 0, k);
    } else {
      hide ClosingParen;
      BeyondTheEnd(source, j, None, false, k);
    }
  }

  /** A position of an argument text is code iff it is code in the text around it. */
  lemma ArgsInCode(source: string, j: nat, k: nat)
    requires j < |source| && source[j] == '('
    requires var (args, end) := ParenText(source, j); j < k <= j + |args|
    ensures var (args, end) := ParenText(source, j);
            InCode(source, j, None, false, k) <==> InCode(args, 0, None, false, k - j - 1)
  {
    var (args, end) := ParenText(source, j);
    var m := j + 1 + |args|;
    assert ArgsEnd(source, j + 1, None, false, 1, m);
    assert source[j + 1..m] == args;
    hide ClosingParen, ArgsEnd;
    PieceInCode(source, j + 1, m, j + 1, None, false, 1, k);
  }

  /** Behind the arguments comes a closing parenthesis, or nothing. */
  lemma ArgsEndAt(source: string, j: nat)
    requires j < |source| && source[j] == '('
    ensures var (args, end) := ParenText(source, j);
            var m := j + 1 + |args|;
            if m == |source| then end == m else end == m + 1 && source[m] == ')'
  {
  }

  // ----- words in pieces ----------------------------------------------------------------------------------------

  lemma {:induction false} BlanksStartInPiece(source: string, p: nat, m: nat, k: nat)
    requires p <= k <= m <= |source| && p > 0 && source[p - 1] !in BLANKS
    ensures BlanksStart(source, k) >= p && BlanksStart(source[p..m], k - p) == BlanksStart(source, k) - p
    decreases k
  {
    if k > p {
      assert source[p..m][k - p - 1] == source[k - 1];
      if source[k - 1] in BLANKS { BlanksStartInPiece(source, p, m, k - 1); }
    }
  }

  lemma {:induction false} WordStartInPiece(v: Vocabulary, source: string, p: nat, m: nat, k: nat)
    requires p <= k <= m <= |source| && p > 0 && !WordChar(v, source[p - 1])
    ensures WordStart(v, source, k) >= p && WordStart(v, source[p..m], k - p) == WordStart(v, source, k) - p
    decreases k
  {
    if k > p {
      assert source[p..m][k - p - 1] == source[k - 1];
      if WordChar(v, source[k - 1]) { WordStartInPiece(v, source, p, m, k - 1); }
    }
  }

  lemma DeclaredInPiece(v: Vocabulary, source: string, p: nat, m: nat, a: nat)
    requires Usual(v) && p <= a <= m <= |source| && p > 0 && (source[p - 1] == '(' || source[p - 1] == '{')
    ensures Declared(v, source[p..m], a - p) <==> Declared(v, source, a)
  {
    hide BlanksStart, WordStart;
    BlanksStartInPiece(source, p, m, a);
    var end := BlanksStart(source, a);
    WordStartInPiece(v, source, p, m, end);
    SliceOfSlice(source, p, m, WordStart(v, source, end), end);
  }

  lemma {:induction false} BlanksInPiece(source: string, p: nat, m: nat, i: nat, blanks: string)
    requires p <= i <= m <= |source| && AfterBlanks(source, i, blanks) < m
    ensures AfterBlanks(source[p..m], i - p, blanks) == AfterBlanks(source, i, blanks) - p
    decreases m - i
  {
    assert source[p..m][i - p] == source[i];
    if source[i] in blanks { BlanksInPiece(source, p, m, i + 1, blanks); }
  }

  lemma {:induction false} PartsInPiece(v: Vocabulary, source: string, p: nat, m: nat, i: nat)
    requires p <= i <= m <= |source| && PartsEnd(v, source, i) < m
    ensures PartsEnd(v, source[p..m], i - p) == PartsEnd(v, source, i) - p
    decreases m - i
  {
    assert source[p..m][i - p] == source[i];
    if v.identPart(source[i]) { PartsInPiece(v, source, p, m, i + 1); }
  }

  lemma IdentInPiece(v: Vocabulary, source: string, p: nat, m: nat, i: nat)
    requires p <= i <= m <= |source| && IdentEnd(v, source, i) < m
    ensures IdentEnd(v, source[p..m], i - p) == IdentEnd(v, source, i) - p
    ensures source[p..m][i - p..IdentEnd(v, source, i) - p] == source[i..IdentEnd(v, source, i)]
  {
    assert source[p..m][i - p] == source[i];
    SliceOfSlice(source, p, m, i, IdentEnd(v, source, i));
    if v.identStart(source[i]) { PartsInPiece(v, source, p, m, i + 1); }
  }

  lemma StartsInPiece(source: string, p: nat, m: nat, i: nat, t: string)
    requires p <= i < m <= |source| && 1 <= |t| <= 2 && (StartsAt(source, i, t) ==> i + |t| <= m)
    ensures StartsAt(source[p..m], i - p, t) == StartsAt(source, i, t)
  {
    var piece := source[p..m];
    assert piece[i - p..] == source[i..m];
    assert StartsAt(source, i, t) ==> source[i..][..|t|] == t && source[i..m][..|t|] == t;
    assert StartsAt(piece, i - p, t) ==> source[i..m][..|t|] == t && source[i..][..|t|] == t;
  }

  lemma SeparatorInPiece(source: string, p: nat, m: nat, i: nat)
    requires p <= i < m <= |source| && (i + 1 < m || source[i] == '(')
    ensures Separator(source[p..m], i - p) == Separator(source, i)
  {
    if source[i] == '(' {
      assert source[p..m][i - p..][0] == source[i..][0] == '(';
    } else {
      hide StartsAt;
      StartsInPiece(source, p, m, i, "?.");
      StartsInPiece(source, p, m, i, "::");
      StartsInPiece(source, p, m, i, "->");
      StartsInPiece(source, p, m, i, ".");
    }
  }

  /** What a chain reads next: nothing more up to `next`, or a separator and a word. */
  datatype Part = Last(next: nat) | Member(sep: string, word: string, next: nat)

  function NextPart(v: Vocabulary, source: string, j: nat): (part: Part)
    requires j <= |source|
    ensures j <= part.next <= |source| && (part.Member? ==> j < part.next)
  {
    var r := AfterBlanks(source, j, BLANKS_AND_BREAKS);
    match Separator(source, r)
    case None => Last(r)
    case Some(sep) =>
      var n := AfterBlanks(source, r + sep.1, BLANKS_AND_BREAKS);
      var e := IdentEnd(v, source, n);
      if e == n then Last(n) else Member(sep.0, source[n..e], e)
  }

  lemma ChainStep(v: Vocabulary, source: string, q: string, id: string, j: nat)
    requires j <= |source|
    ensures var part := NextPart(v, source, j);
            MemberChain(v, source, q, id, j) ==
            if part.Last? then Name(q, id, part.next)
            else MemberChain(v, source, q + part.sep + part.word, part.word, part.next)
  {
    hide Separator, AfterBlanks, IdentEnd;
  }

  lemma NextPartIs(v: Vocabulary, source: string, j: nat)
    requires j <= |source|
    ensures var r := AfterBlanks(source, j, BLANKS_AND_BREAKS);
            var sep := Separator(source, r);
            NextPart(v, source, j) ==
            if sep.None? then Last(r)
            else
              var n := AfterBlanks(source, r + sep.value.1, BLANKS_AND_BREAKS);
              var e := IdentEnd(v, source, n);
              if e == n then Last(n) else Member(sep.value.0, source[n..e], e)
  {
    hide AfterBlanks, Separator, IdentEnd;
  }

  lemma NextPartReaches(v: Vocabulary, source: string, j: nat)
    requires j <= |source|
    ensures var r := AfterBlanks(source, j, BLANKS_AND_BREAKS);
            var sep := Separator(source, r);
            var next := NextPart(v, source, j).next;
            if sep.None? then r == next
            else IdentEnd(v, source, AfterBlanks(source, r + sep.value.1, BLANKS_AND_BREAKS)) == next && r < next
  {
    hide AfterBlanks, Separator, IdentEnd;
  }

  /** Behind the separator a chain reads the same word in a piece of the text as in the text. */
  lemma WordInPiece(v: Vocabulary, source: string, p: nat, m: nat, i: nat)
    requires p <= i <= m <= |source| && IdentEnd(v, source, AfterBlanks(source, i, BLANKS_AND_BREAKS)) < m
    ensures var n := AfterBlanks(source, i, BLANKS_AND_BREAKS);
            var e := IdentEnd(v, source, n);
            && AfterBlanks(source[p..m], i - p, BLANKS_AND_BREAKS) == n - p && IdentEnd(v, source[p..m], n - p) == e - p
            && source[p..m][n - p..e - p] == source[n..e]
  {
    hide *;
    BlanksInPiece(source, p, m, i, BLANKS_AND_BREAKS);
    IdentInPiece(v, source, p, m, AfterBlanks(source, i, BLANKS_AND_BREAKS));
  }

  /** One part of a chain is read in a piece of the text as in the text. */
  lemma PartInPiece(v: Vocabulary, source: string, p: nat, m: nat, j: nat, k: nat)
    requires p <= j <= k < m <= |source| && source[k] == '(' && NextPart(v, source, j).next <= k
    requires AfterBlanks(source, NextPart(v, source, j).next, BLANKS_AND_BREAKS) == k || NextPart(v, source, j).Member?
    ensures var part := NextPart(v, source, j);
            NextPart(v, source[p..m], j - p) ==
            if part.Last? then Last(part.next - p) else Member(part.sep, part.word, part.next - p)
  {
    hide *;
    BlanksTwice(source, j);
    NextPartIs(v, source, j);
    NextPartReaches(v, source, j);
    var r := AfterBlanks(source, j, BLANKS_AND_BREAKS);
    PartFromPiece(v, source, p, m, j, r);
  }

  /** The same, with the position `r` of the separator and its bounds. */
  lemma PartFromPiece(v: Vocabulary, source: string, p: nat, m: nat, j: nat, r: nat)
    requires p <= j <= m <= |source| && r == AfterBlanks(source, j, BLANKS_AND_BREAKS) < m
    requires Separator(source, r).None? ==> source[r] == '('
    requires Separator(source, r).Some? ==>
               && r < NextPart(v, source, j).next < m
               && IdentEnd(v, source, AfterBlanks(source, r + Separator(source, r).value.1, BLANKS_AND_BREAKS)) < m
    ensures var part := NextPart(v, source, j);
            NextPart(v, source[p..m], j - p) ==
            if part.Last? then Last(part.next - p) else Member(part.sep, part.word, part.next - p)
  {
    hide *;
    BlanksInPiece(source, p, m, j, BLANKS_AND_BREAKS);
    SeparatorInPiece(source, p, m, r);
    if Separator(source, r).None? {
      NextPartNone(v, source, j);
      NextPartNone(v, source[p..m], j - p);
    } else {
      var i := r + Separator(source, r).value.1;
      WordInPiece(v, source, p, m, i);
      SomePartFromPiece(v, source, source[p..m], p, j, i, AfterBlanks(source, i, BLANKS_AND_BREAKS));
    }
  }

  /** With the position `i` behind the separator and `n` of the word, read alike in text and piece. */
  lemma SomePartFromPiece(v: Vocabulary, source: string, piece: string, p: nat, j: nat, i: nat, n: nat)
    requires p <= j <= i <= n <= |source| && j <= |source| && n - p <= |piece| && j - p <= |piece|
    requires var r := AfterBlanks(source, j, BLANKS_AND_BREAKS);
             && p <= r && AfterBlanks(piece, j - p, BLANKS_AND_BREAKS) == r - p
             && Separator(source, r).Some? && Separator(piece, r - p) == Separator(source, r)
             && i == r + Separator(source, r).value.1
    requires i - p <= |piece| && n == AfterBlanks(source, i, BLANKS_AND_BREAKS)
    requires AfterBlanks(piece, i - p, BLANKS_AND_BREAKS) == n - p
    requires IdentEnd(v, piece, n - p) == IdentEnd(v, source, n) - p
    requires piece[n - p..IdentEnd(v, source, n) - p] == source[n..IdentEnd(v, source, n)]
    ensures var part := NextPart(v, source, j);
            NextPart(v, piece, j - p) ==
            if part.Last? then Last(part.next - p) else Member(part.sep, part.word, part.next - p)
  {
    hide *;
    NextPartSome(v, source, j);
    NextPartSome(v, piece, j - p);
  }

  lemma NextPartNone(v: Vocabulary, source: string, j: nat)
    requires j <= |source| && Separator(source, AfterBlanks(source, j, BLANKS_AND_BREAKS)).None?
    ensures NextPart(v, source, j) == Last(AfterBlanks(source, j, BLANKS_AND_BREAKS))
  {
    hide AfterBlanks, Separator;
  }

  lemma NextPartSome(v: Vocabulary, source: string, j: nat)
    requires j <= |source| && Separator(source, AfterBlanks(source, j, BLANKS_AND_BREAKS)).Some?
    ensures var r := AfterBlanks(source, j, BLANKS_AND_BREAKS);
            var n := AfterBlanks(source, r + Separator(source, r).value.1, BLANKS_AND_BREAKS);
            var e := IdentEnd(v, source, n);
            NextPart(v, source, j) == if e == n then Last(n) else Member(Separator(source, r).value.0, source[n..e], e)
  {
    hide AfterBlanks, Separator, IdentEnd;
  }

  lemma BlanksTwice(source: string, j: nat)
    requires j <= |source|
    ensures var r := AfterBlanks(source, j, BLANKS_AND_BREAKS); r >= j && AfterBlanks(source, r, BLANKS_AND_BREAKS) == r
  {
  }

  lemma ChainBounds(v: Vocabulary, source: string, q: string, id: string, j: nat)
    requires j <= |source|
    ensures NextPart(v, source, j).next <= MemberChain(v, source, q, id, j).end
            <= AfterBlanks(source, MemberChain(v, source, q, id, j).end, BLANKS_AND_BREAKS)
  {
    hide *;
    ChainStep(v, source, q, id, j);
    BlanksTwice(source, MemberChain(v, source, q, id, j).end);
  }

  /** A name whose parenthesis stands in a piece of the text is read there as it is in the text. */
  lemma {:induction false} ChainInPiece(v: Vocabulary, source: string, p: nat, m: nat, q: string, id: string, j: nat, k: nat)
    requires p <= j <= k < m <= |source| && source[k] == '('
    requires AfterBlanks(source, MemberChain(v, source, q, id, j).end, BLANKS_AND_BREAKS) == k
    ensures var name := MemberChain(v, source, q, id, j);
            name.end >= p && MemberChain(v, source[p..m], q, id, j - p) == Name(name.qualified, name.ident, name.end - p)
    decreases k - j
  {
    hide *;
    ChainBounds(v, source, q, id, j);
    ChainStep(v, source, q, id, j);
    PartInPiece(v, source, p, m, j, k);
    ChainStep(v, source[p..m], q, id, j - p);
    var part := NextPart(v, source, j);
    if part.Member? { ChainInPiece(v, source, p, m, q + part.sep + part.word, part.word, part.next, k); }
  }

  /** A wanted call of a piece of the text that begins behind a parenthesis or a brace. */
  lemma WantedInPiece(v: Vocabulary, source: string, p: nat, m: nat, h: nat, k: nat)
    requires Usual(v) && p <= h <= k < m <= |source| && p > 0 && (source[p - 1] == '(' || source[p - 1] == '{')
    requires Wanted(v, source, h, k)
    ensures Wanted(v, source[p..m], h - p, k - p)
  {
    hide Declared, AfterBlanks, IdentEnd, MemberChain, IsMember;
    DeclaredInPiece(v, source, p, m, h);
    IdentInPiece(v, source, p, m, h);
    var e := IdentEnd(v, source, h);
    ChainInPiece(v, source, p, m, source[h..e], source[h..e], e, k);
    BlanksInPiece(source, p, m, NameAt(v, source, h).end, BLANKS_AND_BREAKS);
  }

  lemma HeadText(v: Vocabulary, source: string, h: nat, k: nat)
    requires Usual(v) && HeadOf(v, source, h, k)
    ensures h < k < |source| && source[k] == '(' && NameText(v, source, h, k)
    ensures v.identStart(source[h]) && IdentEnd(v, source, h) <= k
  {
    hide AfterBlanks, IdentEnd, MemberChain, NameText, Usual;
    WordIsNameText(v, source, h);
  }

  lemma WantedBounds(v: Vocabulary, source: string, h: nat, k: nat)
    requires Usual(v) && Wanted(v, source, h, k)
    ensures h < k < |source| && source[k] == '(' && NameText(v, source, h, k) && v.identStart(source[h])
    ensures source[h] !in MARKS
  {
    HeadText(v, source, h, k);
  }

  /** There is no parenthesis in name text. */
  lemma NotBefore(v: Vocabulary, source: string, i: nat, j: nat, k: nat)
    requires Usual(v) && j <= |source| && NameText(v, source, i, j) && i <= k < |source| && source[k] == '('
    ensures k >= j
  {
    NameTextIsPlain(v, source, i, j);
  }

  /** A name does not straddle a mark that belongs to no name. */
  lemma NameStartsAfter(v: Vocabulary, source: string, h: nat, k: nat, p: nat)
    requires Usual(v) && k <= |source| && NameText(v, source, h, k) && p < k && source[p] in STOPS
    ensures h > p
  {
  }

  /** A word does not begin inside another one. */
  lemma LaterWord(v: Vocabulary, source: string, i: nat, h: nat)
    requires Usual(v) && i < h < |source| && v.identStart(source[i]) && !v.identPart(source[h - 1])
    ensures IdentEnd(v, source, i) <= h
  {
  }

  /** Where a chain ends does not depend on what was read before. */
  lemma {:induction false} EndIgnoresName(v: Vocabulary, source: string, q: string, id: string, q': string, id': string, j: nat)
    requires j <= |source|
    ensures MemberChain(v, source, q, id, j).end == MemberChain(v, source, q', id', j).end
    decreases |source| - j
  {
    hide *;
    ChainStep(v, source, q, id, j);
    ChainStep(v, source, q', id', j);
    var part := NextPart(v, source, j);
    if part.Member? {
      EndIgnoresName(v, source, q + part.sep + part.word, part.word, q' + part.sep + part.word, part.word, part.next);
    }
  }

  /** A word that begins in the next part of a chain is the word of that part. */
  lemma WordInPart(v: Vocabulary, source: string, j: nat, h: nat)
    requires Usual(v) && j <= |source| && j <= h < NextPart(v, source, j).next
    requires v.identStart(source[h]) && (h > 0 ==> !v.identPart(source[h - 1]))
    ensures NextPart(v, source, j).Member?
    ensures var part := NextPart(v, source, j); IdentEnd(v, source, h) == part.next && source[h..part.next] == part.word
  {
    hide *;
    var r := AfterBlanks(source, j, BLANKS_AND_BREAKS);
    BlanksAreNoWord(v, source, j, BLANKS_AND_BREAKS);
    if Separator(source, r).None? {
      NextPartNone(v, source, j);
    } else {
      SeparatorIsNoWord(v, source, r);
      NextPartSome(v, source, j);
      WordBehind(v, source, r + Separator(source, r).value.1, h);
    }
  }

  /** A word that begins behind a separator, before what is read there ends, is what is read there. */
  lemma WordBehind(v: Vocabulary, source: string, i: nat, h: nat)
    requires Usual(v) && i <= |source|
    requires var n := AfterBlanks(source, i, BLANKS_AND_BREAKS); i <= h && (h < n || h < IdentEnd(v, source, n))
    requires v.identStart(source[h]) && (h > 0 ==> !v.identPart(source[h - 1]))
    ensures h == AfterBlanks(source, i, BLANKS_AND_BREAKS)
  {
    BlanksAreNoWord(v, source, i, BLANKS_AND_BREAKS);
    hide AfterBlanks, Usual;
    var n := AfterBlanks(source, i, BLANKS_AND_BREAKS);
    if n < h { InsideWord(v, source, n, h); }
  }

  lemma InsideWord(v: Vocabulary, source: string, n: nat, h: nat)
    requires n < |source| && Usual(v) && n < h < IdentEnd(v, source, n)
    ensures v.identPart(source[h - 1])
  {
  }

  /** A word inside a chain heads a name that ends where the chain does. */
  lemma {:induction false} WordInChain(v: Vocabulary, source: string, q: string, id: string, j: nat, h: nat)
    requires Usual(v) && j <= |source| && j <= h < MemberChain(v, source, q, id, j).end
    requires h < |source| && v.identStart(source[h]) && (h > 0 ==> !v.identPart(source[h - 1]))
    ensures NameAt(v, source, h).end == MemberChain(v, source, q, id, j).end
    decreases |source| - j
  {
    hide *;
    ChainStep(v, source, q, id, j);
    var part := NextPart(v, source, j);
    if h < part.next {
      WordInPart(v, source, j, h);
      NameIs(v, source, h);
      EndIgnoresName(v, source, part.word, part.word, q + part.sep + part.word, part.word, part.next);
    } else {
      WordInChain(v, source, q + part.sep + part.word, part.word, part.next, h);
    }
  }

  lemma NameIs(v: Vocabulary, source: string, h: nat)
    requires h <= |source|
    ensures var e := IdentEnd(v, source, h); NameAt(v, source, h) == MemberChain(v, source, source[h..e], source[h..e], e)
  {
  }

  lemma BlanksAreNoWord(v: Vocabulary, source: string, i: nat, blanks: string)
    requires Usual(v) && i <= |source| && (blanks == BLANKS || blanks == BLANKS_AND_BREAKS)
    ensures forall p :: i <= p < AfterBlanks(source, i, blanks) ==> !v.identStart(source[p])
  {
    forall p | i <= p < AfterBlanks(source, i, blanks) ensures !v.identStart(source[p]) { assert source[p] in MARKS; }
  }

  lemma SeparatorIsNoWord(v: Vocabulary, source: string, i: nat)
    requires Usual(v)
    ensures var sep := Separator(source, i);
            sep.Some? ==> forall p :: i <= p < i + sep.value.1 ==> !v.identStart(source[p])
  {
    var sep := Separator(source, i);
    if sep.Some? {
      forall p | i <= p < i + sep.value.1 ensures !v.identStart(source[p]) {
        assert source[p] == source[i..][p - i];
        assert source[p] in MARKS;
      }
    }
  }

  /** The word at `i` reads up to the parenthesis of every name whose head it reads over. */
  lemma HeadInName(v: Vocabulary, source: string, i: nat, h: nat, k: nat)
    requires Usual(v) && i <= h && i < |source| && v.identStart(source[i]) && HeadOf(v, source, h, k)
    requires h < AfterBlanks(source, NameAt(v, source, i).end, BLANKS_AND_BREAKS)
    ensures AfterBlanks(source, NameAt(v, source, i).end, BLANKS_AND_BREAKS) == k
  {
    hide MemberChain, AfterBlanks, IdentEnd, Usual;
    var e := IdentEnd(v, source, i);
    BlanksAreNoWord(v, source, NameAt(v, source, i).end, BLANKS_AND_BREAKS);
    if i < h {
      LaterWord(v, source, i, h);
      WordInChain(v, source, source[i..e], source[i..e], e, h);
    }
  }

  /** A single word that is no keyword and no declaration is a wanted call, whatever blanks follow it. */
  lemma PlainCall(v: Vocabulary, source: string, a: nat, k: nat)
    requires Usual(v) && CallWord(v, source, a, k)
    requires v.lower(source[a..IdentEnd(v, source, a)]) !in v.nonCall && !Declared(v, source, a)
    ensures Wanted(v, source, a, k) && OneLine(source, a, k)
  {
    hide Declared;
    var e := IdentEnd(v, source, a);
    BlanksUpTo(source, e, k);
    assert AfterBlanks(source, k, BLANKS_AND_BREAKS) == k;
    assert Separator(source, k).None? by { assert source[k..][0] == '('; }
    forall p | a <= p < k && source[p] == '\n' ensures p >= e { assert source[p] in MARKS; }
  }

  lemma {:induction false} BlanksUpTo(source: string, i: nat, k: nat)
    requires i <= k < |source| && source[k] !in BLANKS_AND_BREAKS
    requires forall p :: i <= p < k ==> source[p] in BLANKS_AND_BREAKS
    ensures AfterBlanks(source, i, BLANKS_AND_BREAKS) == k
    decreases k - i
  {
    if i < k { BlanksUpTo(source, i + 1, k); }
  }

  // ----- texts taken as they stand --------------------------------------------------------------------------------

  /** `new X(`: name text up to a parenthesis, and the site of the argument text behind it. */
  lemma NewShape(v: Vocabulary, source: string, base: nat, i: nat)
    requires Usual(v) && i <= |source| && NewSite(v, source, base, i).Some?
    ensures var (site, end) := NewSite(v, source, base, i).value;
            && site.kind == New && site.at >= base + i && site.from == site.at + 1 && site.end == base + end
            && var j := site.at - base;
               && j < |source| && source[j] == '(' && NameText(v, source, i, j) && ParenText(source, j).1 == end
  {
    hide NameText, Usual, AfterBlanks, IdentEnd, MemberChain, ParenText;
    var j := AfterBlanks(source, i, BLANKS);
    BlanksAreNameText(v, source, i, BLANKS);
    var e := IdentEnd(v, source, j);
    IdentIsNameText(v, source, j);
    var end := MemberChain(v, source, source[j..e], source[j..e], e).end;
    MembersAreNameText(v, source, source[j..e], source[j..e], e);
    BlanksAreNameText(v, source, end, BLANKS);
    NameTextJoin(v, source, i, j, e);
    NameTextJoin(v, source, i, e, end);
    NameTextJoin(v, source, i, end, AfterBlanks(source, end, BLANKS));
  }

  /** `={...}`. */
  lemma BraceShape(source: string, base: nat, name: string, qualified: string, j: nat)
    requires StartsAt(source, j, "={")
    ensures j + 2 <= |source| && source[j] == '=' && source[j + 1] == '{'
    ensures var (site, end) := BraceSite(source, base, name, qualified, j);
            && site.kind == Brace && site.at == base + j + 1 && site.from == base + j + 2 && site.end == base + end
            && end == SkipEnd(source, j + 2)
  {
    hide SkipEnd;
    assert source[j] == source[j..][0] && source[j + 1] == source[j..][1];
  }

  /** Behind `={...}` the text is code again: the brace skipper knows interpolations. */
  lemma BracePasses(source: string, j: nat, k: int)
    requires StartsAt(source, j, "={") && j + 2 <= |source| && k >= SkipEnd(source, j + 2)
    ensures InCode(source, j, None, false, k) <==> InCode(source, SkipEnd(source, j + 2), None, false, k)
  {
    hide InCode, SkipEnd, Lex;
    BraceShape(source, 0, "", "", j);
    CodeGoesOn(source, j, j + 2, k);
    BracesPass(source, j + 2, None, false, 1, k) by { SkipEndIsBraceEnd(source, j + 2); }
    SkipEndIsBraceEnd(source, j + 2);
  }

  /** No quote, and no opening parenthesis. */
  predicate Quiet(source: string, lo: nat, hi: nat) {
    forall p :: lo <= p < hi && p < |source| ==> source[p] !in QUOTES.delims && source[p] != '('
  }

  /** No word begins here. */
  predicate Wordless(v: Vocabulary, source: string, lo: nat, hi: nat) {
    forall p :: lo <= p < hi && p < |source| ==> !v.identStart(source[p])
  }

  /** The text from `j` to `end` that a reader without parentheses took. */
  predicate TakenText(v: Vocabulary, source: string, base: nat, site: CallSite, j: nat, end: nat) {
    && j <= end <= |source|
    && site.kind in {Bare, Assign} && site.end == base + end && site.limit == base + |source|
    && base + j <= site.at <= site.from && site.from + |site.args| <= site.end
    && site.args == source[site.from - base..site.from - base + |site.args|]
    && Wordless(v, source, j, site.from - base)
    && Quiet(source, j, site.from - base) && Quiet(source, site.from - base + |site.args|, end)
    && (end < |source| ==> source[end] in ")]};\n")
  }

  /** The reader at position `k`, begun at `i`. */
  function ReaderAt(source: string, i: nat, r: Reader, k: nat): Reader
    requires i <= k <= |source|
    decreases k - i
  {
    if k == i then r else ReaderAt(source, i + 1, Read(r, source[i]), k)
  }

  /** The text without parentheses ends at the first character that breaks it, or at the end of the source. */
  lemma {:induction false} BreakIsFirst(source: string, i: nat, r: Reader, k: nat)
    requires i <= k <= |source|
    ensures var m := BreakFrom(source, i, r);
            && (m < |source| ==> Breaks(ReaderAt(source, i, r, m), source[m]))
            && (k < m ==> !Breaks(ReaderAt(source, i, r, k), source[k]))
    decreases |source| - i
  {
    if i < |source| && !Breaks(r, source[i]) {
      BreakIsFirst(source, i + 1, Read(r, source[i]), if k > i then k else i + 1);
    }
  }

  lemma StopsAtBreak(source: string, i: nat, r: Reader)
    requires i <= |source|
    ensures var m := BreakFrom(source, i, r); m < |source| ==> source[m] in ")]};\n"
  {
    BreakIsFirst(source, i, r, i);
  }

  lemma {:induction false} StrippedLeft(v: Vocabulary, source: string, lo: nat, hi: nat)
    requires Usual(v) && lo <= hi <= |source|
    ensures Quiet(source, lo, StripLeft(v, source, lo, hi)) && Wordless(v, source, lo, StripLeft(v, source, lo, hi))
    decreases hi - lo
  {
    if lo < hi && v.space(source[lo]) { StrippedLeft(v, source, lo + 1, hi); }
  }

  lemma {:induction false} StrippedRight(v: Vocabulary, source: string, lo: nat, hi: nat)
    requires Usual(v) && lo <= hi <= |source|
    ensures Quiet(source, StripRight(v, source, lo, hi), hi)
    decreases hi
  {
    if lo < hi && v.space(source[hi - 1]) { StrippedRight(v, source, lo, hi - 1); }
  }

  lemma QuietJoin(v: Vocabulary, source: string, lo: nat, mid: nat, hi: nat)
    requires Quiet(source, lo, mid) && Quiet(source, mid, hi)
    requires Wordless(v, source, lo, mid) && Wordless(v, source, mid, hi)
    ensures Quiet(source, lo, hi) && Wordless(v, source, lo, hi)
  {
  }

  lemma BlanksAreQuiet(v: Vocabulary, source: string, i: nat)
    requires Usual(v) && i <= |source|
    ensures Quiet(source, i, AfterBlanks(source, i, BLANKS)) && Wordless(v, source, i, AfterBlanks(source, i, BLANKS))
  {
    forall p | i <= p < AfterBlanks(source, i, BLANKS) ensures source[p] in MARKS { }
  }

  lemma BareShape(v: Vocabulary, source: string, base: nat, name: string, qualified: string, j: nat)
    requires Usual(v) && j <= |source| && BareSite(v, source, base, name, qualified, j).Some?
    ensures var (site, end) := BareSite(v, source, base, name, qualified, j).value;
            TakenText(v, source, base, site, j, end) && site.at == base + j
  {
    hide Usual, AfterBlanks, BreakFrom, StripLeft, StripRight, Quiet, Wordless;
    var begin := AfterBlanks(source, j, BLANKS);
    var end := BreakFrom(source, begin, Reader(None, false, 0));
    var lo := StripLeft(v, source, begin, end);
    StopsAtBreak(source, begin, Reader(None, false, 0));
    BlanksAreQuiet(v, source, j);
    StrippedLeft(v, source, begin, end);
    StrippedRight(v, source, lo, end);
    QuietJoin(v, source, j, begin, lo);
  }

  lemma AssignShape(v: Vocabulary, source: string, base: nat, name: string, qualified: string, j: nat)
    requires Usual(v) && j < |source| && source[j] == '='
    ensures var (site, end) := AssignSite(v, source, base, name, qualified, j);
            TakenText(v, source, base, site, j, end) && site.at == base + j
  {
    AssignIsPlain(v, source, j);
    hide Usual, BreakFrom, StripLeft, StripRight, Quiet, Wordless;
    var end := BreakFrom(source, j + 1, Reader(None, false, 0));
    var lo := StripLeft(v, source, j + 1, end);
    StopsAtBreak(source, j + 1, Reader(None, false, 0));
    StrippedLeft(v, source, j + 1, end);
    StrippedRight(v, source, lo, end);
    QuietJoin(v, source, j, j + 1, lo);
  }

  lemma AssignIsPlain(v: Vocabulary, source: string, j: nat)
    requires Usual(v) && j < |source| && source[j] == '='
    ensures Quiet(source, j, j + 1) && Wordless(v, source, j, j + 1)
  {
  }

  /** Behind a taken text that ends in code the scan is in step. */
  lemma TakenPasses(v: Vocabulary, source: string, base: nat, site: CallSite, j: nat, end: nat, k: int)
    requires TakenText(v, source, base, site, j, end) && k >= end
    requires k < |source| ==> EndsInCode(site.args, 0, None, false)
    ensures InCode(source, j, None, false, k) <==> InCode(source, end, None, false, k)
  {
    hide InCode, EndsInCode;
    if k >= |source| {
      BeyondTheEnd(source, j, None, false, k);
      BeyondTheEnd(source, end, None, false, k);
    } else {
      var lo := site.from - base;
      var hi := lo + |site.args|;
      CodeGoesOn(source, j, lo, k);
      InStepBehind(source, lo, hi, lo, None, false, k);
      CodeGoesOn(source, hi, end, k);
    }
  }

  /** No reader without parentheses gets out of step but at an interpolation. */
  lemma BareEndsInCode(v: Vocabulary, source: string, base: nat, name: string, qualified: string, j: nat)
    requires Usual(v) && j <= |source| && BareSite(v, source, base, name, qualified, j).Some?
    ensures var (site, end) := BareSite(v, source, base, name, qualified, j).value;
            end < |source| && NoInterpolation(site.args) ==> EndsInCode(site.args, 0, None, false)
  {
    hide AfterBlanks, EndsInCode, NoInterpolation, Usual, BreakFrom;
    var begin := AfterBlanks(source, j, BLANKS);
    TakenEndsInCode(v, source, begin);
  }

  lemma AssignEndsInCode(v: Vocabulary, source: string, base: nat, name: string, qualified: string, j: nat)
    requires Usual(v) && j < |source|
    ensures var (site, end) := AssignSite(v, source, base, name, qualified, j);
            end < |source| && NoInterpolation(site.args) ==> EndsInCode(site.args, 0, None, false)
  {
    hide EndsInCode, NoInterpolation, Usual, BreakFrom;
    TakenEndsInCode(v, source, j + 1);
  }

  lemma TakenEndsInCode(v: Vocabulary, source: string, begin: nat)
    requires Usual(v) && begin <= |source|
    ensures var end := BreakFrom(source, begin, Reader(None, false, 0));
            var lo := StripLeft(v, source, begin, end);
            var hi := StripRight(v, source, lo, end);
            end < |source| && NoInterpolation(source[lo..hi]) ==> EndsInCode(source[lo..hi], 0, None, false)
  {
    hide EndsInCode, NoInterpolation, BreakFrom, StripLeft, StripRight;
    var end := BreakFrom(source, begin, Reader(None, false, 0));
    var lo := StripLeft(v, source, begin, end);
    var hi := StripRight(v, source, lo, end);
    if end < |source| && NoInterpolation(source[lo..hi]) {
      StrippedRight(v, source, lo, end);
      ReadsSpaces(v, source, begin, end);
      ReaderInStep(source, lo, hi, end, lo, Reader(None, false, 0));
    }
  }

  /** Spaces in front change nothing for the reader. */
  lemma {:induction false} ReadsSpaces(v: Vocabulary, source: string, lo: nat, end: nat)
    requires Usual(v) && lo <= end <= |source| && BreakFrom(source, lo, Reader(None, false, 0)) == end
    ensures BreakFrom(source, StripLeft(v, source, lo, end), Reader(None, false, 0)) == end
    decreases end - lo
  {
    if lo < end && v.space(source[lo]) { ReadsSpaces(v, source, lo + 1, end); }
  }
}
