/**
 `_skip_balanced_brace` and `_balanced_parens` of `backend/app/parsing/extract.py`.

 The brace skipper was written independently of the comment stripper, but both must find the same end of an
 interpolation, because the extractor rescans stripped text.  It is proved against the same lexer.
 */
module Braces {
  import opened CommentLexer
  import opened Comments
  import opened Options

  /** The three string delimiters of the extractor; it knows no comments. */
  const QUOTES: Config := Config([], "", "", {'"', '\'', '`'})

  /** Index after the brace that closes the interpolation whose text begins at `start`. */
  function SkipEnd(source: string, start: nat): (end: nat)
    requires start <= |source|
    ensures start <= end <= |source|
  {
    start + |Lex(QUOTES, source[start..], Start(1))|
  }

  lemma SkipOne(source: string, i: nat, s: State, s': State)
    requires i < |source| && s.mode != Done && Step(QUOTES, source[i..], s) == (source[i], s')
    ensures |Lex(QUOTES, source[i..], s)| == 1 + |Lex(QUOTES, source[i + 1..], s')|
  {
    hide Step;
    LexOne(QUOTES, source[i..], s, source[i], s');
    assert source[i..][1..] == source[i + 1..];
  }

  lemma SkipInterpolation(source: string, i: nat, depth: nat)
    requires i + 1 < |source| && Interpolates(source[i..])
    ensures var s := Scan(Some('`'), false, depth);
            SkipEnd(source, i + 2) + |Lex(QUOTES, source[SkipEnd(source, i + 2)..], s)| == i + |Lex(QUOTES, source[i..], s)|
  {
    hide Lex, Interpolates;
    LexInterpolation(QUOTES, source[i..], depth);
    Slices(source, i, 2);
    var inner := Lex(QUOTES, source[i + 2..], Start(1));
    Slices(source, i, 2 + |inner|);
  }

  /** Without comments, code is only delimiters and braces. */
  lemma QuotesOnly(rest: string)
    ensures !BlockStarts(QUOTES, rest) && !AnyMarker(rest, QUOTES.lineMarkers)
  {
  }

  /** `_skip_balanced_brace`. */
  method SkipBalancedBrace(source: string, start: nat) returns (end: nat)
    requires start <= |source|
    ensures end == SkipEnd(source, start)
    decreases |source| - start
  {
    hide Lex, AnyMarker, BlockStarts;
    var depth, i, n := 1, start, |source|;
    var inStr: Option<char>, escape := None, false;
    while i < n && depth > 0
      invariant start <= i <= n && depth > 0 && (inStr.None? ==> !escape)
      invariant i + |Lex(QUOTES, source[i..], Scan(inStr, escape, depth))| == SkipEnd(source, start)
      decreases n - i
    {
      var ch := source[i];
      ghost var s := Scan(inStr, escape, depth);
      if inStr.Some? {
        if escape {
          SkipOne(source, i, s, Scan(inStr, false, depth));
          escape := false;
        } else if ch == '\\' {
          SkipOne(source, i, s, Scan(inStr, true, depth));
          escape := true;
        } else if inStr == Some('`') && ch == '$' && i + 1 < n && source[i + 1] == '{' {
          SkipInterpolation(source, i, depth);
          i := i + 2;
          i := SkipBalancedBrace(source, i);
          continue;
        } else if inStr == Some(ch) {
          SkipOne(source, i, s, Scan(None, false, depth));
          inStr := None;
        } else {
          SkipOne(source, i, s, s);
        }
        i := i + 1;
        continue;
      }
      QuotesOnly(source[i..]);
      if ch in {'"', '\'', '`'} {
        SkipOne(source, i, s, Scan(Some(ch), false, depth));
        inStr := Some(ch);
      } else if ch == '{' {
        SkipOne(source, i, s, Scan(None, false, depth + 1));
        depth := depth + 1;
      } else if ch == '}' {
        if depth == 1 {
          SkipOne(source, i, s, State(Done, 0, []));
          LexDone(source[i + 1..]);
          return i + 1;
        }
        SkipOne(source, i, s, Scan(None, false, depth - 1));
        depth := depth - 1;
      } else {
        SkipOne(source, i, s, s);
      }
      i := i + 1;
    }
    LexEmpty(source[i..], Scan(inStr, escape, depth));
    return n;
  }

  lemma LexDone(rest: string)
    ensures Lex(QUOTES, rest, State(Done, 0, [])) == []
  {
  }

  lemma LexEmpty(rest: string, s: State)
    requires rest == []
    ensures Lex(QUOTES, rest, s) == []
  {
  }

  // ----- agreement of the two scanners --------------------------------------------------------------------

  /** With nothing to strip, the lexer copies what it reads. */
  lemma {:induction false} NothingToStrip(delims: set<char>, rest: string, s: State)
    requires CleanMode(s.mode) == s.mode
    ensures Lex(Config([], "", "", delims), rest, s) <= rest
    decreases |rest|
  {
    if rest != [] && s.mode != Done {
      var cfg := Config([], "", "", delims);
      NothingStep(cfg, rest, s);
      hide Step;
      NothingToStrip(delims, rest[1..], Step(cfg, rest, s).1);
    }
  }

  lemma NothingStep(cfg: Config, rest: string, s: State)
    requires rest != [] && s.mode != Done && CleanMode(s.mode) == s.mode && cfg == NoComments(cfg)
    ensures var (c, s') := Step(cfg, rest, s); c == rest[0] && CleanMode(s'.mode) == s'.mode
  {
    assert !AnyMarker(rest, cfg.lineMarkers) && !BlockStarts(cfg, rest);
    hide AnyMarker, BlockStarts, Interpolates;
  }

  /**
   The interpolation stripper (`Lex` from `Start(1)`, see `StripInterpolation`) without comment markers returns the
   text unchanged and stops exactly where the brace skipper stops, closed or not.
   */
  lemma ScannersAgree(cfg: Config, source: string, i: nat)
    requires i <= |source| && cfg.delims == QUOTES.delims
    ensures Lex(NoComments(cfg), source[i..], Start(1)) == source[i..SkipEnd(source, i)]
  {
    hide Lex;
    assert NoComments(cfg) == QUOTES;
    NothingToStrip(QUOTES.delims, source[i..], Start(1));
  }

  /** The output from position `k` on is what the lexer writes from its state there. */
  lemma {:induction false} LexFrom(cfg: Config, rest: string, s: State, k: nat)
    requires k <= |Lex(cfg, rest, s)|
    ensures Lex(cfg, rest, s)[k..] == Lex(cfg, rest[k..], StateAt(cfg, rest, s, k))
    decreases k
  {
    hide Step;
    if k > 0 {
      LexFrom(cfg, rest[1..], Step(cfg, rest, s).1, k - 1);
      assert rest[1..][k - 1..] == rest[k..];
    } else {
      assert rest[0..] == rest;
    }
  }

  /**
   On a stripped file they agree with the markers of the language included: at every position `k` where the stripper
   entered an interpolation, rescanning its output strips nothing and stops where the brace skipper stops.
   */
  lemma ScannersAgreeAfterStripping(cfg: Config, source: string, k: nat)
    requires BlankFree(cfg) && cfg.delims == QUOTES.delims && k <= |source|
    requires var s := StateAt(cfg, source, Start(0), k); s.mode == Code && s.depth == 1
    ensures var t := Lex(cfg, source, Start(0));
            k <= |t| && Lex(cfg, t[k..], Start(1)) == t[k..SkipEnd(t, k)]
  {
    hide Lex, StateAt;
    var t := Lex(cfg, source, Start(0));
    var s := StateAt(cfg, source, Start(0), k);
    LexKeepsLength(cfg, source, Start(0));
    LexFrom(cfg, source, Start(0), k);
    InterpolationAfterStripping(cfg, source[k..], s.stack);
    ScannersAgree(cfg, t, k);
  }

  // ----- parentheses --------------------------------------------------------------------------------------

  /** Index of the parenthesis that brings `depth` back to zero, scanning from `i`. */
  function ClosingParen(source: string, i: nat, inStr: Option<char>, escape: bool, depth: nat): (k: Option<nat>)
    requires i <= |source|
    ensures k.Some? ==> i <= k.value < |source| && source[k.value] == ')'
    decreases |source| - i
  {
    if i == |source| then None
    else
      var ch := source[i];
      if inStr.Some? then
        if escape then ClosingParen(source, i + 1, inStr, false, depth)
        else if ch == '\\' then ClosingParen(source, i + 1, inStr, true, depth)
        else if inStr == Some('`') && Interpolates(source[i..]) then
          ClosingParen(source, SkipEnd(source, i + 2), inStr, false, depth)
        else if inStr == Some(ch) then ClosingParen(source, i + 1, None, false, depth)
        else ClosingParen(source, i + 1, inStr, false, depth)
      else if ch in QUOTES.delims then ClosingParen(source, i + 1, Some(ch), false, depth)
      else if ch == '(' then ClosingParen(source, i + 1, None, false, depth + 1)
      else if ch == ')' && depth <= 1 then Some(i)
      else if ch == ')' then ClosingParen(source, i + 1, None, false, depth - 1)
      else ClosingParen(source, i + 1, None, false, depth)
  }

  /** `_balanced_parens`: the text between the parentheses and the index after them. */
  method BalancedParens(source: string, start: nat) returns (args: string, end: nat)
    requires start < |source| && source[start] == '('
    ensures match ClosingParen(source, start, None, false, 0)
            case Some(k) => start < k && args == source[start + 1..k] && end == k + 1
            case None => args == source[start + 1..] && end == |source|
  {
    hide SkipEnd;
    var depth, i, n := 0, start, |source|;
    var inStr: Option<char>, escape := None, false;
    while i < n
      invariant start <= i <= n && (inStr.None? ==> !escape)
      invariant if i == start then depth == 0 && inStr.None? else depth > 0
      invariant ClosingParen(source, i, inStr, escape, depth) == ClosingParen(source, start, None, false, 0)
      decreases n - i
    {
      var ch := source[i];
      if inStr.Some? {
        if escape {
          escape := false;
        } else if ch == '\\' {
          escape := true;
        } else if inStr == Some('`') && ch == '$' && i + 1 < n && source[i + 1] == '{' {
          i := i + 2;
          i := SkipBalancedBrace(source, i);
          continue;
        } else if inStr == Some(ch) {
          inStr := None;
        }
        i := i + 1;
        continue;
      }
      if ch in {'"', '\'', '`'} {
        inStr := Some(ch);
      } else if ch == '(' {
        depth := depth + 1;
      } else if ch == ')' {
        depth := depth - 1;
        if depth == 0 {
          return source[start + 1..i], i + 1;
        }
      }
      i := i + 1;
    }
    return source[start + 1..], n;
  }
}
