/**
 Which positions of a text are code: neither inside a string literal nor part of the marks around an interpolation.
 The closing parentheses and braces that the scanners of `backend/app/parsing/extract.py` look for keep in step with it.
 */
module CodePositions {
  import opened Braces
  import opened CallSites
  import opened CommentLexer
  import opened Comments
  import opened Options

  /** Position `k` is code, reading from `i`, in code or in the string `quote`. */
  predicate InCode(source: string, i: nat, quote: Option<char>, escape: bool, k: int)
    requires i <= |source|
    decreases |source|, |source| - i
  {
    if i == |source| || k < i then false
    else
      var ch := source[i];
      if quote.Some? then
        if escape then InCode(source, i + 1, quote, false, k)
        else if ch == '\\' then InCode(source, i + 1, quote, true, k)
        else if quote == Some('`') && Interpolates(source[i..]) then
          if k < SkipEnd(source, i + 2) then InCode(Inner(source, i + 2), 0, None, false, k - i - 2)
          else InCode(source, SkipEnd(source, i + 2), quote, false, k)
        else InCode(source, i + 1, if quote == Some(ch) then None else quote, false, k)
      else k == i || InCode(source, i + 1, if ch in QUOTES.delims then Some(ch) else None, false, k)
  }

  /** Without a quote in between, code goes on. */
  lemma {:induction false} CodeGoesOn(source: string, i: nat, m: nat, k: int)
    requires i <= m <= k && m <= |source|
    requires forall p :: i <= p < m ==> source[p] !in QUOTES.delims
    ensures InCode(source, i, None, false, k) <==> InCode(source, m, None, false, k)
    decreases m - i
  {
    if i < m { CodeGoesOn(source, i + 1, m, k); }
  }

  /** In a string, without a quote in between, the string goes on; no interpolation opens before a parenthesis. */
  lemma {:induction false} StringGoesOn(source: string, i: nat, quote: char, escape: bool, k: nat)
    requires i <= k < |source| && quote in QUOTES.delims
    requires forall p :: i <= p <= k ==> source[p] !in QUOTES.delims && source[p] != '{'
    ensures !InCode(source, i, Some(quote), escape, k)
    decreases k - i
  {
    hide SkipEnd;
    if i + 1 <= k {
      assert !Interpolates(source[i..]);
      StringGoesOn(source, i + 1, quote, !escape && source[i] == '\\', k);
    } else {
      assert Interpolates(source[i..]) ==> k < i + 2;
      OutsideInner(source, i, quote, escape, k);
    }
  }

  lemma OutsideInner(source: string, i: nat, quote: char, escape: bool, k: int)
    requires i < |source| && k <= i && source[i] != quote
    ensures !InCode(source, i, Some(quote), escape, k)
  {
    hide SkipEnd;
  }

  // ----- parentheses ------------------------------------------------------------------------------------------

  /** After the closing parenthesis the text is code again, whatever is read on the way there. */
  lemma {:induction false} ClosingPasses(source: string, i: nat, quote: Option<char>, escape: bool, depth: nat, k: int)
    requires i <= |source| && (quote.None? ==> !escape)
    requires var c := ClosingParen(source, i, quote, escape, depth); c.Some? && k > c.value
    ensures var c := ClosingParen(source, i, quote, escape, depth).value;
            InCode(source, i, quote, escape, k) <==> InCode(source, c + 1, None, false, k)
    decreases |source| - i
  {
    hide SkipEnd, Inner;
    var ch := source[i];
    if quote.Some? && !escape && ch != '\\' && quote == Some('`') && Interpolates(source[i..]) {
      ClosingPasses(source, SkipEnd(source, i + 2), quote, false, depth, k);
    } else if quote.Some? {
      var left := !escape && ch != '\\' && quote == Some(ch);
      ClosingPasses(source, i + 1, if left then None else quote, !escape && ch == '\\', depth, k);
    } else if ch in QUOTES.delims {
      ClosingPasses(source, i + 1, Some(ch), false, depth, k);
    } else if ch == '(' {
      ClosingPasses(source, i + 1, None, false, depth + 1, k);
    } else if ch == ')' {
      if depth > 1 { ClosingPasses(source, i + 1, None, false, depth - 1, k); }
    } else {
      ClosingPasses(source, i + 1, None, false, depth, k);
    }
  }

  /** What the lexer reads does not depend on the text behind it. */
  lemma {:induction false} LexPrefix(rest: string, n: nat, s: State)
    requires |Lex(QUOTES, rest, s)| <= n <= |rest|
    ensures |Lex(QUOTES, rest[..n], s)| == |Lex(QUOTES, rest, s)|
    decreases |rest|
  {
    if n == 0 {
      assert rest[..n] == [];
    } else if s.mode != Done {
      var (_, s') := Step(QUOTES, rest, s);
      hide SkipEnd;
      StepPrefix(rest, n, s);
      assert rest[..n][1..] == rest[1..][..n - 1];
      hide Step;
      LexPrefix(rest[1..], n - 1, s');
    }
  }

  lemma StepPrefix(rest: string, n: nat, s: State)
    requires 0 < n <= |rest| && s.mode != Done && |Lex(QUOTES, rest, s)| <= n
    ensures Step(QUOTES, rest[..n], s) == Step(QUOTES, rest, s)
  {
    QuotesOnly(rest);
    QuotesOnly(rest[..n]);
    NoBlockEnd(rest);
    NoBlockEnd(rest[..n]);
    if s.mode == Text('`', false) && Interpolates(rest) { OpeningReadsTwo(rest, s); }
    hide AnyMarker, BlockStarts, BlockEnds, Lex;
    if n >= 2 { assert Interpolates(rest[..n]) <==> Interpolates(rest); }
  }

  lemma OpeningReadsTwo(rest: string, s: State)
    requires s.mode == Text('`', false) && Interpolates(rest)
    ensures |Lex(QUOTES, rest, s)| >= 2
  {
    var s' := State(Opening, s.depth, s.stack);
    LexOne(QUOTES, rest, s, '$', s');
    LexOne(QUOTES, rest[1..], s', '{', State(Code, 1, s'.stack + [s'.depth]));
  }

  lemma NoBlockEnd(rest: string)
    ensures !BlockEnds(QUOTES, rest)
  {
  }

  /** An interpolation that ends inside a piece of the text ends there for the piece, too. */
  lemma SkipEndInPiece(source: string, p: nat, m: nat, start: nat)
    requires p <= start <= m <= |source| && SkipEnd(source, start) <= m
    ensures SkipEnd(source[p..m], start - p) == SkipEnd(source, start) - p
    ensures Inner(source[p..m], start - p) == Inner(source, start)
  {
    assert source[p..m][start - p..] == source[start..][..m - start];
    LexPrefix(source[start..], m - start, Start(1));
    hide Lex;
    var end := SkipEnd(source, start);
    if end > start { SliceOfSlice(source, p, m, start, end - 1); }
  }

  lemma SliceOfSlice(source: string, p: nat, m: nat, a: nat, b: nat)
    requires p <= a <= b <= m <= |source|
    ensures source[p..m][a - p..b - p] == source[a..b]
  {
    var piece := source[p..m];
    var x, y := piece[a - p..b - p], source[a..b];
    assert |x| == |y|;
    forall k | 0 <= k < |x| ensures x[k] == y[k] {
      assert x[k] == piece[a - p + k];
      assert piece[a - p + k] == source[a + k];
    }
  }

  /** The end `m` of an argument text read from `i` on: its closing parenthesis, or the end of the text. */
  predicate ArgsEnd(source: string, i: nat, quote: Option<char>, escape: bool, depth: nat, m: nat)
    requires i <= |source|
  {
    match ClosingParen(source, i, quote, escape, depth)
    case Some(c) => m == c
    case None => m == |source|
  }

  lemma InCodeNext(source: string, i: nat, quote: Option<char>, escape: bool, k: int)
    requires i < |source| && i <= k && (quote.None? ==> !escape)
    requires quote == Some('`') && !escape && source[i] != '\\' ==> !Interpolates(source[i..])
    ensures InCode(source, i, quote, escape, k) <==>
            (quote.None? && k == i)
            || InCode(source, i + 1, QuoteAfter(quote, escape, source[i]), quote.Some? && !escape && source[i] == '\\', k)
  {
    hide SkipEnd, Interpolates, Inner;
  }

  lemma InCodeOpens(source: string, i: nat, k: int)
    requires i < |source| && source[i] != '\\' && Interpolates(source[i..])
    ensures var end := SkipEnd(source, i + 2);
            InCode(source, i, Some('`'), false, k) <==>
            k >= i && if k < end then InCode(Inner(source, i + 2), 0, None, false, k - i - 2)
                      else InCode(source, end, Some('`'), false, k)
  {
    hide SkipEnd, Inner;
  }

  /** A position of an argument text is code there iff it is code in the whole text. */
  lemma {:induction false} PieceInCode(source: string, p: nat, m: nat, i: nat, quote: Option<char>, escape: bool, depth: nat,
    k: nat)
    requires p <= i <= |source| && ArgsEnd(source, i, quote, escape, depth, m) && (quote.None? ==> !escape)
    requires i <= m <= |source| && p <= k < m
    ensures InCode(source[p..m], i - p, quote, escape, k - p) <==> InCode(source, i, quote, escape, k)
    decreases |source| - i
  {
    hide *;
    if i == m || k < i {
      NotInCode(source, i, quote, escape, k);
      NotInCode(source[p..m], i - p, quote, escape, k - p);
    } else {
      ArgsEndBound(source, i, quote, escape, depth, m);
      var ch := source[i];
      if quote == Some('`') && !escape && ch != '\\' && Interpolates(source[i..]) {
        ArgsGoOnAfter(source, i, depth, m);
        var end := SkipEnd(source, i + 2);
        if k >= end { PieceInCode(source, p, m, end, quote, false, depth, k); }
        PieceOpens(source, p, m, i, k);
      } else {
        ArgsGoOn(source, i, quote, escape, depth, m);
        EscapeNeedsQuote(quote, escape, ch);
        PieceInCode(source, p, m, i + 1, QuoteAfter(quote, escape, ch), quote.Some? && !escape && ch == '\\',
          DepthAfter(quote, ch, depth), k);
        PieceNext(source, p, m, i, quote, escape, k);
      }
    }
  }

  lemma PieceOpens(source: string, p: nat, m: nat, i: nat, k: nat)
    requires p <= i < m <= |source| && i <= k < m && (m < |source| ==> source[m] == ')')
    requires source[i] != '\\' && Interpolates(source[i..]) && SkipEnd(source, i + 2) <= m
    requires var end := SkipEnd(source, i + 2);
             k >= end ==> (InCode(source[p..m], end - p, Some('`'), false, k - p) <==> InCode(source, end, Some('`'), false, k))
    ensures InCode(source[p..m], i - p, Some('`'), false, k - p) <==> InCode(source, i, Some('`'), false, k)
  {
    hide *;
    var piece := source[p..m];
    InterpolatesInPiece(source, p, m, i);
    SkipEndInPiece(source, p, m, i + 2);
    var end := SkipEnd(source, i + 2);
    assert SkipEnd(piece, i - p + 2) == end - p;
    InCodeOpens(source, i, k);
    InCodeOpens(piece, i - p, k - p);
    assert k < end <==> k - p < end - p;
  }

  lemma PieceNext(source: string, p: nat, m: nat, i: nat, quote: Option<char>, escape: bool, k: nat)
    requires p <= i < m <= |source| && i <= k < m && (m < |source| ==> source[m] == ')') && (quote.None? ==> !escape)
    requires quote == Some('`') && !escape && source[i] != '\\' ==> !Interpolates(source[i..])
    requires var quote', escape' := QuoteAfter(quote, escape, source[i]), quote.Some? && !escape && source[i] == '\\';
             InCode(source[p..m], i + 1 - p, quote', escape', k - p) <==> InCode(source, i + 1, quote', escape', k)
    ensures InCode(source[p..m], i - p, quote, escape, k - p) <==> InCode(source, i, quote, escape, k)
  {
    hide *;
    var piece := source[p..m];
    InterpolatesInPiece(source, p, m, i);
    InCodeNext(source, i, quote, escape, k);
    InCodeNext(piece, i - p, quote, escape, k - p);
  }

  lemma EscapeNeedsQuote(quote: Option<char>, escape: bool, ch: char)
    ensures quote.Some? && !escape && ch == '\\' ==> QuoteAfter(quote, escape, ch).Some?
  {
  }

  lemma NotInCode(source: string, i: nat, quote: Option<char>, escape: bool, k: int)
    requires i <= |source| && (i == |source| || k < i)
    ensures !InCode(source, i, quote, escape, k)
  {
  }

  function QuoteAfter(quote: Option<char>, escape: bool, ch: char): Option<char> {
    if quote.Some? then (if !escape && ch != '\\' && quote == Some(ch) then None else quote)
    else if ch in QUOTES.delims then Some(ch)
    else None
  }

  function DepthAfter(quote: Option<char>, ch: char, depth: nat): nat {
    if quote.None? && ch == '(' then depth + 1 else if quote.None? && ch == ')' && depth > 0 then depth - 1 else depth
  }

  lemma ArgsGoOn(source: string, i: nat, quote: Option<char>, escape: bool, depth: nat, m: nat)
    requires i < m && i < |source| && ArgsEnd(source, i, quote, escape, depth, m) && (quote.None? ==> !escape)
    requires quote == Some('`') && !escape && source[i] != '\\' ==> !Interpolates(source[i..])
    ensures ArgsEnd(source, i + 1, QuoteAfter(quote, escape, source[i]), quote.Some? && !escape && source[i] == '\\',
              DepthAfter(quote, source[i], depth), m)
  {
    hide SkipEnd, Interpolates;
  }

  lemma ArgsEndBound(source: string, i: nat, quote: Option<char>, escape: bool, depth: nat, m: nat)
    requires i <= |source| && ArgsEnd(source, i, quote, escape, depth, m)
    ensures i <= m <= |source| && (m < |source| ==> source[m] == ')')
  {
    hide ClosingParen;
  }

  lemma ArgsGoOnAfter(source: string, i: nat, depth: nat, m: nat)
    requires i < m && i < |source| && ArgsEnd(source, i, Some('`'), false, depth, m)
    requires source[i] != '\\' && Interpolates(source[i..])
    ensures ArgsEnd(source, SkipEnd(source, i + 2), Some('`'), false, depth, m) && SkipEnd(source, i + 2) <= m
  {
    hide SkipEnd;
  }

  lemma InterpolatesInPiece(source: string, p: nat, m: nat, i: nat)
    requires p <= i < m <= |source| && (m < |source| ==> source[m] == ')')
    ensures source[p..m][i - p] == source[i]
    ensures Interpolates(source[p..m][i - p..]) <==> Interpolates(source[i..])
  {
    assert source[p..m][i - p..] == source[i..m];
  }

  /** A closed interpolation ends with its brace. */
  lemma {:induction false} LexClosed(rest: string, s: State)
    requires s.mode != Done && |Lex(QUOTES, rest, s)| < |rest|
    ensures var n := |Lex(QUOTES, rest, s)|; n > 0 && rest[n - 1] == '}'
    decreases |rest|
  {
    var (_, s') := Step(QUOTES, rest, s);
    if s'.mode == Done {
      StepDone(rest, s);
    } else {
      hide Step;
      LexClosed(rest[1..], s');
    }
  }

  lemma StepDone(rest: string, s: State)
    requires rest != [] && s.mode != Done && Step(QUOTES, rest, s).1.mode == Done
    ensures rest[0] == '}'
  {
    hide AnyMarker, BlockStarts, BlockEnds, Interpolates;
  }

  lemma SkipEndsAtBrace(source: string, start: nat)
    requires start <= |source| && SkipEnd(source, start) < |source|
    ensures SkipEnd(source, start) > start && source[SkipEnd(source, start) - 1] == '}'
  {
    LexClosed(source[start..], Start(1));
  }

  // ----- texts taken as they stand ------------------------------------------------------------------------------

  lemma {:induction false} BeyondTheEnd(source: string, i: nat, quote: Option<char>, escape: bool, k: int)
    requires i <= |source| <= k
    ensures !InCode(source, i, quote, escape, k)
    decreases |source| - i
  {
    hide SkipEnd, Inner;
    if i < |source| {
      var ch := source[i];
      if quote == Some('`') && !escape && ch != '\\' && Interpolates(source[i..]) {
        BeyondTheEnd(source, SkipEnd(source, i + 2), quote, false, k);
      } else {
        var left := !escape && ch != '\\' && quote == Some(ch);
        var quote' := if quote.None? then (if ch in QUOTES.delims then Some(ch) else None) else if left then None else quote;
        BeyondTheEnd(source, i + 1, quote', quote.Some? && !escape && ch == '\\', k);
      }
    }
  }

  /** Index behind the brace that closes what is open at `i`, in code or in the string `quote`. */
  function BraceEnd(source: string, i: nat, quote: Option<char>, escape: bool, depth: nat): nat
    requires i <= |source|
  {
    i + |Lex(QUOTES, source[i..], Scan(quote, escape, depth))|
  }

  lemma BraceEndNext(source: string, i: nat, quote: Option<char>, escape: bool, depth: nat)
    requires i < |source| && depth > 0 && (quote.None? ==> !escape)
    requires quote == Some('`') && !escape && source[i] != '\\' ==> !Interpolates(source[i..])
    ensures var ch := source[i];
            BraceEnd(source, i, quote, escape, depth) ==
            if quote.None? && ch == '}' && depth == 1 then i + 1
            else BraceEnd(source, i + 1, QuoteAfter(quote, escape, ch), quote.Some? && !escape && ch == '\\',
                          if quote.None? && ch == '{' then depth + 1 else if quote.None? && ch == '}' then depth - 1 else depth)
  {
    hide Lex, AnyMarker, BlockStarts;
    var ch := source[i];
    QuotesOnly(source[i..]);
    var s := Scan(quote, escape, depth);
    var depth' := if quote.None? && ch == '{' then depth + 1 else if quote.None? && ch == '}' then depth - 1 else depth;
    if quote.None? && ch == '}' && depth == 1 {
      SkipOne(source, i, s, State(Done, 0, []));
      LexDone(source[i + 1..]);
    } else {
      SkipOne(source, i, s, Scan(QuoteAfter(quote, escape, ch), quote.Some? && !escape && ch == '\\', depth'));
    }
  }

  lemma BraceEndOpens(source: string, i: nat, depth: nat)
    requires i < |source| && source[i] != '\\' && Interpolates(source[i..])
    ensures BraceEnd(source, i, Some('`'), false, depth) == BraceEnd(source, SkipEnd(source, i + 2), Some('`'), false, depth)
  {
    hide Lex;
    SkipInterpolation(source, i, depth);
  }

  lemma BraceEndBounds(source: string, i: nat, quote: Option<char>, escape: bool, depth: nat)
    requires i <= |source|
    ensures i <= BraceEnd(source, i, quote, escape, depth) <= |source|
    ensures i == |source| ==> BraceEnd(source, i, quote, escape, depth) == i
  {
    hide Scan;
  }

  /** Behind the closing brace the text is code again, whatever is read on the way there. */
  lemma {:induction false} BracesPass(source: string, i: nat, quote: Option<char>, escape: bool, depth: nat, k: int)
    requires i <= |source| && depth > 0 && (quote.None? ==> !escape)
    requires k >= BraceEnd(source, i, quote, escape, depth)
    ensures BraceEnd(source, i, quote, escape, depth) <= |source|
    ensures InCode(source, i, quote, escape, k) <==>
            InCode(source, BraceEnd(source, i, quote, escape, depth), None, false, k)
    decreases |source| - i
  {
    hide *;
    BraceEndBounds(source, i, quote, escape, depth);
    if i == |source| {
      NotInCode(source, i, quote, escape, k);
      NotInCode(source, i, None, false, k);
    } else {
      var ch := source[i];
      if quote == Some('`') && !escape && ch != '\\' && Interpolates(source[i..]) {
        BraceEndOpens(source, i, depth);
        BraceEndBounds(source, SkipEnd(source, i + 2), quote, false, depth);
        BracesPass(source, SkipEnd(source, i + 2), quote, false, depth, k);
        InCodeOpens(source, i, k);
      } else {
        BraceEndNext(source, i, quote, escape, depth);
        InCodeNext(source, i, quote, escape, k);
        var depth' := if quote.None? && ch == '{' then depth + 1 else if quote.None? && ch == '}' then depth - 1 else depth;
        EscapeNeedsQuote(quote, escape, ch);
        if quote.None? && ch == '}' && depth == 1 {
          BraceIsNoQuote(escape);
        } else {
          var quote', escape' := QuoteAfter(quote, escape, ch), quote.Some? && !escape && ch == '\\';
          BraceEndBounds(source, i + 1, quote', escape', depth');
          BracesPass(source, i + 1, quote', escape', depth', k);
        }
      }
    }
  }

  lemma BraceIsNoQuote(escape: bool)
    ensures QuoteAfter(None, escape, '}') == None
  {
  }

  /** Read from code on, with interpolations, the text ends in code: outside strings and interpolations. */
  predicate EndsInCode(text: string, i: nat, quote: Option<char>, escape: bool)
    requires i <= |text|
    decreases |text| - i
  {
    if i == |text| then quote.None?
    else if quote == Some('`') && !escape && text[i] != '\\' && Interpolates(text[i..]) then
      EndsInCode(text, SkipEnd(text, i + 2), quote, false)
    else EndsInCode(text, i + 1, QuoteAfter(quote, escape, text[i]), quote.Some? && !escape && text[i] == '\\')
  }

  /** What ends inside a prefix ends there for the whole text, too. */
  lemma {:induction false} LexExtends(rest: string, n: nat, s: State)
    requires n <= |rest| && |Lex(QUOTES, rest[..n], s)| < n
    ensures |Lex(QUOTES, rest, s)| == |Lex(QUOTES, rest[..n], s)|
    decreases |rest|
  {
    if s.mode != Done {
      StepInPrefix(rest, n, s);
      var (_, s') := Step(QUOTES, rest, s);
      assert rest[..n][1..] == rest[1..][..n - 1];
      hide Step;
      LexExtends(rest[1..], n - 1, s');
    }
  }

  lemma StepInPrefix(rest: string, n: nat, s: State)
    requires 0 < n <= |rest| && s.mode != Done && |Lex(QUOTES, rest[..n], s)| < n
    ensures n >= 2 && Step(QUOTES, rest[..n], s) == Step(QUOTES, rest, s)
  {
    QuotesOnly(rest);
    QuotesOnly(rest[..n]);
    NoBlockEnd(rest);
    NoBlockEnd(rest[..n]);
    hide AnyMarker, BlockStarts, BlockEnds;
    assert n >= 2;
    assert Interpolates(rest[..n]) <==> Interpolates(rest);
  }

  lemma SkipEndExtends(source: string, p: nat, m: nat, start: nat)
    requires p <= start <= m <= |source| && SkipEnd(source[p..m], start - p) < m - p
    ensures SkipEnd(source, start) == SkipEnd(source[p..m], start - p) + p
  {
    assert source[p..m][start - p..] == source[start..][..m - start];
    LexExtends(source[start..], m - start, Start(1));
  }

  lemma EndsInString(text: string, escape: bool)
    ensures !EndsInCode(text, |text|, Some('`'), escape)
  {
  }

  lemma EndsNext(text: string, i: nat, quote: Option<char>, escape: bool)
    requires i < |text| && !(quote == Some('`') && !escape && text[i] != '\\' && Interpolates(text[i..]))
    ensures EndsInCode(text, i, quote, escape) ==
            EndsInCode(text, i + 1, QuoteAfter(quote, escape, text[i]), quote.Some? && !escape && text[i] == '\\')
  {
    hide SkipEnd, Interpolates, QuoteAfter;
  }

  lemma EndsOpens(text: string, i: nat)
    requires i < |text| && text[i] != '\\' && Interpolates(text[i..])
    ensures EndsInCode(text, i, Some('`'), false) == EndsInCode(text, SkipEnd(text, i + 2), Some('`'), false)
  {
    hide SkipEnd;
  }

  /** Behind a taken text that ends in code the scan is in step with the text. */
  lemma {:induction false} InStepBehind(source: string, p: nat, m: nat, i: nat, quote: Option<char>, escape: bool, k: int)
    requires p <= i <= m <= |source| && m <= k && (quote.None? ==> !escape)
    requires EndsInCode(source[p..m], i - p, quote, escape)
    ensures InCode(source, i, quote, escape, k) <==> InCode(source, m, None, false, k)
    decreases m - i
  {
    hide *;
    var text := source[p..m];
    if i == m {
      EndOfText(text, quote, escape);
    } else {
      var ch := source[i];
      TextAt(source, p, m, i);
      if quote == Some('`') && !escape && ch != '\\' && Interpolates(source[i..]) {
        InCodeOpens(source, i, k);
        OpensInText(source, p, m, i);
        var end := SkipEnd(source, i + 2);
        InStepBehind(source, p, m, end, quote, false, k);
      } else {
        InCodeNext(source, i, quote, escape, k);
        EndsNext(text, i - p, quote, escape);
        EscapeNeedsQuote(quote, escape, ch);
        InStepBehind(source, p, m, i + 1, QuoteAfter(quote, escape, ch), quote.Some? && !escape && ch == '\\', k);
      }
    }
  }

  lemma SkipEndIsBraceEnd(source: string, start: nat)
    requires start <= |source|
    ensures BraceEnd(source, start, None, false, 1) == SkipEnd(source, start)
  {
    hide Lex;
  }

  lemma EndOfText(text: string, quote: Option<char>, escape: bool)
    requires EndsInCode(text, |text|, quote, escape)
    ensures quote.None?
  {
  }

  lemma TextAt(source: string, p: nat, m: nat, i: nat)
    requires p <= i < m <= |source|
    ensures source[p..m][i - p] == source[i]
    ensures Interpolates(source[p..m][i - p..]) ==> Interpolates(source[i..])
    ensures i + 1 < m && Interpolates(source[i..]) ==> Interpolates(source[p..m][i - p..])
  {
    assert source[p..m][i - p..] == source[i..m];
  }

  /** An interpolation that opens in a text which ends in code is closed in it. */
  lemma OpensInText(source: string, p: nat, m: nat, i: nat)
    requires p <= i < m <= |source| && source[i] != '\\' && Interpolates(source[i..])
    requires EndsInCode(source[p..m], i - p, Some('`'), false)
    ensures i + 2 <= SkipEnd(source, i + 2) <= m
    ensures EndsInCode(source[p..m], SkipEnd(source, i + 2) - p, Some('`'), false)
  {
    hide *;
    var text := source[p..m];
    TextAt(source, p, m, i);
    TextOpens(source, i);
    if i + 1 == m {
      DollarStays(text, i - p);
      EndsInString(text, false);
    }
    EndsOpens(text, i - p);
    var end := SkipEnd(text, i - p + 2);
    if end == |text| { EndsInString(text, false); }
    SkipEndExtends(source, p, m, i + 2);
  }

  lemma TextOpens(source: string, i: nat)
    requires i <= |source| && Interpolates(source[i..])
    ensures i + 1 < |source| && source[i] == '$' && source[i + 1] == '{'
  {
  }

  lemma DollarStays(text: string, i: nat)
    requires i + 1 == |text| && text[i] == '$'
    ensures EndsInCode(text, i, Some('`'), false) == EndsInCode(text, i + 1, Some('`'), false)
  {
  }

  /** Closing braces close what is open in code. */
  lemma {:induction false} ClosersClose(source: string, i: nat, depth: nat)
    requires depth > 0 && i + depth <= |source| && forall p :: i <= p < i + depth ==> source[p] == '}'
    ensures BraceEnd(source, i, None, false, depth) == i + depth
    decreases depth
  {
    hide BraceEnd;
    BraceEndNext(source, i, None, false, depth);
    if depth > 1 { ClosersClose(source, i + 1, depth - 1); }
  }

  /** Enough closing braces behind a text that ends in code close everything the text opens. */
  lemma {:induction false} ClosersReach(source: string, lo: nat, m: nat, n: nat, i: nat, quote: Option<char>, escape: bool,
    depth: nat)
    requires lo <= i <= m && m + n <= |source| && forall p :: m <= p < m + n ==> source[p] == '}'
    requires EndsInCode(source[lo..m], i - lo, quote, escape) && (quote.None? ==> !escape)
    requires depth > 0 && n >= depth + (m - i)
    ensures BraceEnd(source, i, quote, escape, depth) <= m + n
    decreases m - i
  {
    hide *;
    if i == m {
      EndOfText(source[lo..m], quote, escape);
      ClosersClose(source, m, depth);
    } else {
      var ch := source[i];
      TextAt(source, lo, m, i);
      if quote == Some('`') && !escape && ch != '\\' && Interpolates(source[i..]) {
        OpensInText(source, lo, m, i);
        BraceEndOpens(source, i, depth);
        ClosersReach(source, lo, m, n, SkipEnd(source, i + 2), quote, false, depth);
      } else {
        BraceEndNext(source, i, quote, escape, depth);
        if !(quote.None? && ch == '}' && depth == 1) {
          EndsNext(source[lo..m], i - lo, quote, escape);
          EscapeNeedsQuote(quote, escape, ch);
          ClosersReach(source, lo, m, n, i + 1, QuoteAfter(quote, escape, ch), quote.Some? && !escape && ch == '\\',
            if quote.None? && ch == '{' then depth + 1 else if quote.None? && ch == '}' then depth - 1 else depth);
        }
      }
    }
  }

  /** Behind position `hi` come `n` closing braces, a character, an opening parenthesis, and closing ones. */
  predicate ClosedCall(source: string, hi: nat, n: nat) {
    && hi + n + 1 < |source| && source[hi + n + 1] == '(' && source[hi + n] !in QUOTES.delims + {'{', '}', '\\'}
    && (forall p :: hi <= p < hi + n ==> source[p] == '}')
    && (forall p :: hi + n + 1 < p < |source| ==> source[p] == ')')
  }

  /** Behind a text that does not end in code a call is not code, however many braces are closed before it. */
  lemma {:induction false} CallBehindIsNotCode(source: string, lo: nat, hi: nat, n: nat, i: nat, quote: Option<char>, escape: bool)
    requires lo <= i <= hi && ClosedCall(source, hi, n) && n >= hi - lo + 1
    requires !EndsInCode(source[lo..hi], i - lo, quote, escape)
    requires (quote.None? ==> !escape) && (quote.Some? ==> quote.value in QUOTES.delims)
    ensures !InCode(source, i, quote, escape, hi + n + 1)
    decreases hi, hi - i
  {
    hide *;
    ClosedCallPlain(source, hi, n);
    var text, k := source[lo..hi], hi + n + 1;
    if i == hi {
      NotEnded(text, quote, escape);
      StringGoesOn(source, i, quote.value, escape, k);
    } else {
      var ch := source[i];
      TextAt(source, lo, hi, i);
      BehindText(source, hi, n, i);
      if quote == Some('`') && !escape && ch != '\\' && Interpolates(source[i..]) {
        InCodeOpens(source, i, k);
        EndsOpens(text, i - lo);
        var end := SkipEnd(source, i + 2);
        if end <= hi {
          SkipEndInPiece(source, lo, hi, i + 2);
          CallBehindIsNotCode(source, lo, hi, n, end, quote, false);
        } else if end <= k {
          StringGoesOn(source, end, '`', false, k);
        } else {
          CallInUnclosed(source, lo, hi, n, i);
        }
      } else {
        InCodeNext(source, i, quote, escape, k);
        EndsNext(text, i - lo, quote, escape);
        EscapeNeedsQuote(quote, escape, ch);
        QuotesStayQuotes(quote, escape, ch);
        CallBehindIsNotCode(source, lo, hi, n, i + 1, QuoteAfter(quote, escape, ch), quote.Some? && !escape && ch == '\\');
      }
    }
  }

  /** The interpolation that opens at `i` is not closed before the call: the call is not code inside it either. */
  lemma {:induction false} CallInUnclosed(source: string, lo: nat, hi: nat, n: nat, i: nat)
    requires lo <= i && i + 2 <= hi && ClosedCall(source, hi, n) && n >= hi - lo + 1
    requires SkipEnd(source, i + 2) > hi + n + 1
    ensures !InCode(Inner(source, i + 2), 0, None, false, hi + n + 1 - i - 2)
    decreases hi, hi - i, 0
  {
    hide *;
    var inner, k := Inner(source, i + 2), hi + n + 1;
    var end := SkipEnd(source, i + 2);
    InnerEnd(source, hi, n, i + 2);
    if |inner| <= k - i - 2 {
      BeyondTheEnd(inner, 0, None, false, k - i - 2);
    } else {
      InnerIsClosedCall(source, hi, n, i + 2);
      var text := source[i + 2..hi];
      SliceOfSlice(source, i + 2, i + 2 + |inner|, i + 2, hi);
      ClosedCallBounds(source, hi, n);
      if EndsInCode(text, 0, None, false) {
        ClosersReach(source, i + 2, hi, n, i + 2, None, false, 1);
        SkipEndIsBraceEnd(source, i + 2);
      }
      CallBehindIsNotCode(inner, 0, hi - i - 2, n, 0, None, false);
    }
  }

  lemma ClosedCallBounds(source: string, hi: nat, n: nat)
    requires ClosedCall(source, hi, n)
    ensures hi + n + 1 < |source| && forall p :: hi <= p < hi + n ==> source[p] == '}'
  {
  }

  lemma ClosedCallPlain(source: string, hi: nat, n: nat)
    requires ClosedCall(source, hi, n)
    ensures hi + n + 1 < |source|
    ensures forall p :: hi <= p < |source| ==> source[p] !in QUOTES.delims && source[p] != '{'
  {
    forall p | hi <= p < |source| ensures source[p] !in QUOTES.delims && source[p] != '{' {
      assert p < hi + n || p == hi + n || p == hi + n + 1 || p > hi + n + 1;
    }
  }

  lemma NotEnded(text: string, quote: Option<char>, escape: bool)
    requires !EndsInCode(text, |text|, quote, escape)
    ensures quote.Some?
  {
  }

  lemma BehindText(source: string, hi: nat, n: nat, i: nat)
    requires i < hi && ClosedCall(source, hi, n)
    ensures Interpolates(source[i..]) ==> i + 2 <= hi
  {
    ClosedCallPlain(source, hi, n);
  }

  lemma QuotesStayQuotes(quote: Option<char>, escape: bool, ch: char)
    requires quote.Some? ==> quote.value in QUOTES.delims
    ensures var q := QuoteAfter(quote, escape, ch); q.Some? ==> q.value in QUOTES.delims
  {
  }

  lemma InnerEnd(source: string, hi: nat, n: nat, start: nat)
    requires start <= hi && ClosedCall(source, hi, n) && SkipEnd(source, start) > hi + n + 1
    ensures SkipEnd(source, start) == |source| && start + |Inner(source, start)| == |source| - 1
    ensures Inner(source, start) == source[start..|source| - 1]
  {
    hide SkipEnd;
    if SkipEnd(source, start) < |source| { SkipEndsAtBrace(source, start); }
  }

  lemma InnerIsClosedCall(source: string, hi: nat, n: nat, start: nat)
    requires start <= hi && ClosedCall(source, hi, n) && SkipEnd(source, start) > hi + n + 1
    requires hi + n + 1 - start < |Inner(source, start)|
    ensures ClosedCall(Inner(source, start), hi - start, n)
  {
    hide SkipEnd, Inner;
    InnerEnd(source, hi, n, start);
    var inner := Inner(source, start);
    forall p | 0 <= p < |inner| ensures inner[p] == source[start + p] { }
  }

  function Closers(n: nat): (t: string)
    ensures |t| == n && forall p :: 0 <= p < n ==> t[p] == '}'
  {
    seq(n, _ => '}')
  }

  /** What may follow a text that a reader stops behind. */
  predicate Breaking(rest: string) {
    rest != "" && rest[0] in ")]};\n"
  }

  /** Reading on behind a text as code is right, whatever the reader stops before, exactly when the text ends in code. */
  lemma InStepIff(text: string)
    ensures EndsInCode(text, 0, None, false) <==>
            forall rest: string, k: int :: Breaking(rest) && k >= |text| ==>
              (InCode(text + rest, 0, None, false, k) <==> InCode(text + rest, |text|, None, false, k))
  {
    hide *;
    if EndsInCode(text, 0, None, false) {
      forall rest: string, k: int | Breaking(rest) && k >= |text|
        ensures InCode(text + rest, 0, None, false, k) <==> InCode(text + rest, |text|, None, false, k)
      {
        assert (text + rest)[0..|text|] == text;
        InStepBehind(text + rest, 0, |text|, 0, None, false, k);
      }
    } else {
      var n := |text| + 1;
      var rest := Closers(n) + "x()";
      var whole := text + rest;
      ClosersBreak(text, n);
      assert whole[0..|text|] == text;
      CallBehindIsNotCode(whole, 0, |text|, n, 0, None, false);
      ClosedCallPlain(whole, |text|, n);
      CodeHere(whole, |text| + n + 1);
      CodeGoesOn(whole, |text|, |text| + n + 1, |text| + n + 1);
    }
  }

  lemma ClosersBreak(text: string, n: nat)
    requires n > 0
    ensures Breaking(Closers(n) + "x()") && ClosedCall(text + (Closers(n) + "x()"), |text|, n)
  {
  }

  lemma CodeHere(source: string, i: nat)
    requires i < |source|
    ensures InCode(source, i, None, false, i)
  {
  }

  /** No interpolation opens in the text. */
  predicate NoInterpolation(text: string) {
    forall p :: 0 <= p < |text| ==> !Interpolates(text[p..])
  }

  /** Characters that are no quotes leave the reader in its string, or outside. */
  lemma {:induction false} QuoteStays(source: string, i: nat, m: nat, r: Reader)
    requires i <= m < |source| && BreakFrom(source, i, r) == m
    requires forall p :: i <= p < m ==> source[p] !in QUOTES.delims
    requires r.quote.Some? ==> r.quote.value in QUOTES.delims
    ensures r.quote == None
    decreases m - i
  {
    if i < m && !Breaks(r, source[i]) { QuoteStays(source, i + 1, m, Read(r, source[i])); }
  }

  /** Without interpolations the reader of arguments without parentheses stops in code. */
  lemma {:induction false} ReaderInStep(source: string, lo: nat, hi: nat, m: nat, i: nat, r: Reader)
    requires lo <= i <= hi <= m < |source| && BreakFrom(source, i, r) == m
    requires forall p :: hi <= p < m ==> source[p] !in QUOTES.delims
    requires r.quote.Some? ==> r.quote.value in QUOTES.delims
    requires (r.quote.None? ==> !r.escape) && NoInterpolation(source[lo..hi])
    ensures EndsInCode(source[lo..hi], i - lo, r.quote, r.escape)
    decreases hi - i
  {
    hide *;
    if i == hi {
      QuoteStays(source, hi, m, r);
      CodeAtEnd(source[lo..hi]);
    } else {
      ReadsOn(source, i, m, r);
      TextAt(source, lo, hi, i);
      NotInterpolated(source[lo..hi], i - lo);
      EndsNext(source[lo..hi], i - lo, r.quote, r.escape);
      ReaderInStep(source, lo, hi, m, i + 1, Read(r, source[i]));
    }
  }

  lemma CodeAtEnd(text: string)
    ensures EndsInCode(text, |text|, None, false)
  {
  }

  lemma NotInterpolated(text: string, p: nat)
    requires NoInterpolation(text) && p < |text|
    ensures !Interpolates(text[p..])
  {
  }

  lemma ReadsOn(source: string, i: nat, m: nat, r: Reader)
    requires i < m <= |source| && BreakFrom(source, i, r) == m
    requires r.quote.Some? ==> r.quote.value in QUOTES.delims
    requires r.quote.None? ==> !r.escape
    ensures var next := Read(r, source[i]);
            && BreakFrom(source, i + 1, next) == m
            && next.quote == QuoteAfter(r.quote, r.escape, source[i])
            && next.escape == (r.quote.Some? && !r.escape && source[i] == '\\')
            && (next.quote.Some? ==> next.quote.value in QUOTES.delims) && (next.quote.None? ==> !next.escape)
  {
  }
}
