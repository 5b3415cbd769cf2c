/**
 What strings and brackets mean to `_split_top_level`, `_unmatched` and `_should_join`, to the reader of arguments
 without parentheses and to the one of arguments in parentheses: literals are skipped, brackets are counted, and the
 markers of continued lines are written out.
 */
module SplitMeaning {
  import opened Braces
  import opened CallSites
  import Comments
  import CommentLexer
  import opened Options
  import opened Texts
  import opened TextSplit

  /** The inside of a literal: no delimiter without a backslash before it, and no lone backslash at the end. */
  predicate Body(body: string, quote: char) {
    body == "" ||
    if body[0] == '\\' then |body| > 1 && Body(body[2..], quote)
    else body[0] != quote && Body(body[1..], quote)
  }

  /** Outside a literal nothing but brackets and quotes matters, and a closing bracket never goes below zero. */
  lemma BracketsAreCounted(depth: nat, ch: char)
    ensures var s := Nesting(None, false, depth);
            Next(s, ch) ==
              if ch == '(' || ch == '[' || ch == '{' then Nesting(None, false, depth + 1)
              else if ch == ')' || ch == ']' || ch == '}' then Nesting(None, false, if depth == 0 then 0 else depth - 1)
              else if ch == '"' || ch == '\'' || ch == '`' then Nesting(Some(ch), false, depth)
              else s
  {
  }

  lemma {:induction false} BodyIsSkipped(body: string, quote: char, rest: string, depth: nat)
    requires Body(body, quote) && quote != '\\'
    ensures Fold(body + [quote] + rest, Nesting(Some(quote), false, depth)) == Fold(rest, Nesting(None, false, depth))
  {
    var text := body + [quote] + rest;
    if body == "" {
      assert text[1..] == rest;
    } else if body[0] == '\\' {
      assert text[1..][1..] == body[2..] + [quote] + rest;
      BodyIsSkipped(body[2..], quote, rest, depth);
    } else {
      assert text[1..] == body[1..] + [quote] + rest;
      BodyIsSkipped(body[1..], quote, rest, depth);
    }
  }

  /** Brackets and separators in a literal do not count. */
  lemma LiteralIsSkipped(quote: char, body: string, rest: string, depth: nat)
    requires quote in {'"', '\'', '`'} && Body(body, quote)
    ensures Fold([quote] + body + [quote] + rest, Nesting(None, false, depth)) == Fold(rest, Nesting(None, false, depth))
  {
    var text := [quote] + body + [quote] + rest;
    assert text[1..] == body + [quote] + rest;
    BracketsAreCounted(depth, quote);
    BodyIsSkipped(body, quote, rest, depth);
  }

  /** Something in brackets leaves the depth as it was. */
  lemma BracketsClose(open: char, inner: string, close: char, rest: string, depth: nat)
    requires open in {'(', '[', '{'} && close in {')', ']', '}'}
    requires Fold(inner, Nesting(None, false, depth + 1)) == Nesting(None, false, depth + 1)
    ensures Fold([open] + inner + [close] + rest, Nesting(None, false, depth)) == Fold(rest, Nesting(None, false, depth))
  {
    var text := [open] + inner + [close] + rest;
    assert text[1..] == inner + ([close] + rest);
    FoldJoin(inner, [close] + rest, Nesting(None, false, depth + 1));
    assert ([close] + rest)[1..] == rest;
  }

  lemma {:induction false} FoldJoin(a: string, b: string, s: Nesting)
    ensures Fold(a + b, s) == Fold(b, Fold(a, s))
    decreases a
  {
    if a == "" {
      assert a + b == b;
    } else {
      assert (a + b)[1..] == a[1..] + b;
      FoldJoin(a[1..], b, Next(s, a[0]));
    }
  }

  /** A separator outside strings and brackets cuts: the part before it, and the parts of what is behind it. */
  lemma {:induction false} CutsAtSeparator(a: string, sep: char, b: string, s: Nesting)
    requires sep !in "([{)]}\"'`" && Fold(a, s) == OUTSIDE
    requires forall k :: 0 <= k < |a| && a[k] == sep ==> Fold(a[..k], s).inStr.Some? || Fold(a[..k], s).depth > 0
    ensures Pieces(a + [sep] + b, sep, s) == [a] + Pieces(b, sep, OUTSIDE)
    decreases a
  {
    var text := a + [sep] + b;
    if a == "" {
      assert text[1..] == b;
    } else {
      var s' := Next(s, a[0]);
      assert text[1..] == a[1..] + [sep] + b;
      assert Fold(a[..0], s) == s;
      forall k | 0 <= k < |a[1..]| && a[1..][k] == sep
        ensures Fold(a[1..][..k], s').inStr.Some? || Fold(a[1..][..k], s').depth > 0
      {
        assert a[..k + 1][1..] == a[1..][..k];
        assert Fold(a[..k + 1], s) == Fold(a[1..][..k], s');
        assert a[k + 1] == sep;
      }
      CutsAtSeparator(a[1..], sep, b, s');
      assert [a[0]] + a[1..] == a;
    }
  }

  /** `_split_top_level` of a part, a separator and more text. */
  lemma SplitAtSeparator(a: string, sep: char, b: string)
    requires sep !in "([{)]}\"'`" && Fold(a, OUTSIDE) == OUTSIDE
    requires forall k :: 0 <= k < |a| && a[k] == sep ==> Fold(a[..k], OUTSIDE).inStr.Some? || Fold(a[..k], OUTSIDE).depth > 0
    ensures Split(a + [sep] + b, sep) == [a] + Split(b, sep)
  {
    hide *;
    CutsAtSeparator(a, sep, b, OUTSIDE);
    SplitIs(a + [sep] + b, sep);
    SplitIs(b, sep);
    WithoutTail(a, Pieces(b, sep, OUTSIDE));
  }

  lemma SplitIs(text: string, sep: char)
    ensures Split(text, sep) == WithoutEmptyTail(Pieces(text, sep, OUTSIDE))
  {
    hide Pieces;
  }

  lemma WithoutTail(a: string, p: seq<string>)
    requires p != []
    ensures WithoutEmptyTail([a] + p) == [a] + WithoutEmptyTail(p)
  {
    assert ([a] + p)[..|p|] == [a] + p[..|p| - 1];
  }

  /**
   A line goes on in the next one exactly if a bracket is open, or the next line is not blank and this one ends with one
   of twelve markers or the next one begins with one of five.
   */
  lemma JoinsIff(current: string, next: string, space: char -> bool)
    ensures Joins(current, next, space) <==>
      || Fold(current, OUTSIDE).depth > 0
      || (&& Strip(next, space) != ""
          && (|| (exists e :: e in {".", "?.", "::", "->", "=>", "=", ",", "\\", "+", "(", "{", "["}
                                && Ends(TrimRight(current, space), e))
              || (exists b :: b in {"{", ".", "?.", "->", "::"} && Begins(Strip(next, space), b))))
  {
    hide *;
    JoinsIs(current, next, space);
    SameEnds();
    SameStarts();
    EndsIff(TrimRight(current, space), [".", "?.", "::", "->", "=>", "=", ",", "\\", "+", "(", "{", "["],
            {".", "?.", "::", "->", "=>", "=", ",", "\\", "+", "(", "{", "["});
    BeginsIff(Strip(next, space), ["{", ".", "?.", "->", "::"], {"{", ".", "?.", "->", "::"});
  }

  lemma JoinsIs(current: string, next: string, space: char -> bool)
    ensures Joins(current, next, space) <==>
      || Fold(current, OUTSIDE).depth > 0
      || (&& Strip(next, space) != ""
          && (|| EndsWithAny(TrimRight(current, space), [".", "?.", "::", "->", "=>", "=", ",", "\\", "+", "(", "{", "["])
              || StartsWithAny(Strip(next, space), ["{", ".", "?.", "->", "::"])))
  {
    hide Fold, Strip, TrimRight, EndsWithAny, StartsWithAny;
  }

  lemma SameEnds()
    ensures forall e :: e in {".", "?.", "::", "->", "=>", "=", ",", "\\", "+", "(", "{", "["} <==>
                        e in [".", "?.", "::", "->", "=>", "=", ",", "\\", "+", "(", "{", "["]
  {
  }

  lemma SameStarts()
    ensures forall b :: b in {"{", ".", "?.", "->", "::"} <==> b in ["{", ".", "?.", "->", "::"]
  {
  }

  predicate Ends(text: string, e: string) {
    |e| <= |text| && text[|text| - |e|..] == e
  }

  predicate Begins(text: string, b: string) {
    b <= text
  }

  lemma EndsIff(text: string, ends: seq<string>, markers: set<string>)
    requires forall e :: e in markers <==> e in ends
    ensures EndsWithAny(text, ends) <==> exists e :: e in markers && Ends(text, e)
  {
    if EndsWithAny(text, ends) {
      var k :| 0 <= k < |ends| && |ends[k]| <= |text| && text[|text| - |ends[k]|..] == ends[k];
      assert ends[k] in markers && Ends(text, ends[k]);
    }
    if exists e :: e in markers && Ends(text, e) {
      var e :| e in markers && Ends(text, e);
      var k :| 0 <= k < |ends| && ends[k] == e;
    }
  }

  lemma BeginsIff(text: string, starts: seq<string>, markers: set<string>)
    requires forall b :: b in markers <==> b in starts
    ensures StartsWithAny(text, starts) <==> exists b :: b in markers && Begins(text, b)
  {
    if StartsWithAny(text, starts) {
      var k :| 0 <= k < |starts| && starts[k] <= text;
      assert starts[k] in markers && Begins(text, starts[k]);
    }
    if exists b :: b in markers && Begins(text, b) {
      var b :| b in markers && Begins(text, b);
      var k :| 0 <= k < |starts| && starts[k] == b;
    }
  }

  // ----- the reader without parentheses --------------------------------------------------------------------------

  /** Outside a literal the reader stops at a closing bracket of its own depth, a semicolon or a line break. */
  lemma ReaderMeans(depth: nat, ch: char)
    ensures var r := Reader(None, false, depth);
            && (Breaks(r, ch) <==> depth == 0 && (ch == ')' || ch == ']' || ch == '}' || ch == ';' || ch == '\n'))
            && Read(r, ch) ==
                 if ch == '(' || ch == '[' || ch == '{' then Reader(None, false, depth + 1)
                 else if (ch == ')' || ch == ']' || ch == '}') && depth > 0 then Reader(None, false, depth - 1)
                 else if ch == '"' || ch == '\'' || ch == '`' then Reader(Some(ch), false, depth)
                 else r
  {
  }

  lemma {:induction false} ReaderInBody(source: string, i: nat, n: nat, quote: char, depth: nat)
    requires i + n < |source| && Body(source[i..i + n], quote) && source[i + n] == quote && quote != '\\'
    ensures BreakFrom(source, i, Reader(Some(quote), false, depth)) == BreakFrom(source, i + n + 1, Reader(None, false, depth))
    decreases n
  {
    var body := source[i..i + n];
    if n > 0 {
      assert body[0] == source[i];
      if source[i] == '\\' {
        assert body[2..] == source[i + 2..i + 2 + (n - 2)];
        ReaderInBody(source, i + 2, n - 2, quote, depth);
      } else {
        assert body[1..] == source[i + 1..i + 1 + (n - 1)];
        ReaderInBody(source, i + 1, n - 1, quote, depth);
      }
    }
  }

  /** It reads over a literal, line breaks and brackets in it included. */
  lemma ReaderSkipsLiteral(source: string, i: nat, n: nat, quote: char, depth: nat)
    requires quote in {'"', '\'', '`'} && i + n + 1 < |source|
    requires source[i] == quote && Body(source[i + 1..i + 1 + n], quote) && source[i + 1 + n] == quote
    ensures BreakFrom(source, i, Reader(None, false, depth)) == BreakFrom(source, i + n + 2, Reader(None, false, depth))
  {
    ReaderMeans(depth, quote);
    ReaderInBody(source, i + 1, n, quote, depth);
  }

  /** What `strip()` leaves begins and ends with a character that is no space, and only spaces are cut off. */
  lemma {:induction false} StrippedRange(v: Vocabulary, source: string, lo: nat, hi: nat)
    requires lo <= hi <= |source|
    ensures var a := StripLeft(v, source, lo, hi);
            && lo <= a <= hi && (forall p :: lo <= p < a ==> v.space(source[p])) && (a < hi ==> !v.space(source[a]))
    ensures var b := StripRight(v, source, lo, hi);
            && lo <= b <= hi && (forall p :: b <= p < hi ==> v.space(source[p])) && (lo < b ==> !v.space(source[b - 1]))
    decreases hi - lo
  {
    if lo < hi {
      if v.space(source[lo]) { StrippedRange(v, source, lo + 1, hi); }
      if v.space(source[hi - 1]) { StrippedRange(v, source, lo, hi - 1); }
    }
  }

  // ----- arguments in parentheses ----------------------------------------------------------------------------------

  /** Opening parentheses minus closing ones. */
  function Excess(t: string): int {
    if t == "" then 0 else (if t[0] == '(' then 1 else if t[0] == ')' then -1 else 0) + Excess(t[1..])
  }

  /** In text without quotes the closing parenthesis is the first position at which as many close as opened. */
  lemma ClosesWhereBalanced(source: string, j: nat, k: nat)
    requires j < k < |source| && source[j] == '(' && source[k] == ')'
    requires forall p :: j <= p < k ==> source[p] !in {'"', '\'', '`'}
    requires Excess(source[j..k]) == 1 && forall m :: j < m <= k ==> Excess(source[j..m]) >= 1
    ensures ClosingParen(source, j, None, false, 0) == Some(k)
  {
    var i := j + 1;
    forall m | i <= m <= k ensures 1 + Excess(source[i..m]) >= 1
    {
      ExcessOfSlice(source, j, m);
      assert Excess(source[j..m]) >= 1;
    }
    ExcessOfSlice(source, j, k);
    ClosesFrom(source, i, k, 1);
  }

  lemma {:induction false} ClosesFrom(source: string, i: nat, k: nat, depth: nat)
    requires i <= k < |source| && source[k] == ')' && depth >= 1
    requires forall p :: i <= p < k ==> source[p] !in {'"', '\'', '`'}
    requires depth + Excess(source[i..k]) == 1 && forall m :: i <= m <= k ==> depth + Excess(source[i..m]) >= 1
    ensures ClosingParen(source, i, None, false, depth) == Some(k)
    decreases k - i
  {
    if i == k {
      assert source[i..k] == "";
    } else {
      var next := depth + if source[i] == '(' then 1 else if source[i] == ')' then -1 else 0;
      var b := i + 1;
      forall m | b <= m <= k ensures next + Excess(source[b..m]) >= 1
      {
        ExcessOfSlice(source, i, m);
        assert depth + Excess(source[i..m]) >= 1;
      }
      ExcessOfSlice(source, i, i + 1);
      ExcessOfSlice(source, i, k);
      assert depth + Excess(source[i..i + 1]) >= 1;
      assert source[i + 1..i + 1] == "";
      ClosesFrom(source, b, k, next);
    }
  }

  lemma ExcessOfSlice(source: string, i: nat, m: nat)
    requires i < m <= |source|
    ensures Excess(source[i..m]) ==
            (if source[i] == '(' then 1 else if source[i] == ')' then -1 else 0) + Excess(source[i + 1..m])
  {
    assert source[i..m][0] == source[i] && source[i..m][1..] == source[i + 1..m];
  }

  lemma {:induction false} ClosingInBody(source: string, i: nat, n: nat, quote: char, depth: nat)
    requires i + n < |source| && Body(source[i..i + n], quote) && source[i + n] == quote && quote != '\\'
    requires quote == '`' ==> forall p :: i <= p < i + n ==> source[p] != '$'
    ensures ClosingParen(source, i, Some(quote), false, depth) == ClosingParen(source, i + n + 1, None, false, depth)
    decreases n
  {
    var body := source[i..i + n];
    assert CommentLexer.Interpolates(source[i..]) ==> source[i] == '$';
    if n > 0 {
      assert body[0] == source[i];
      if source[i] == '\\' {
        assert body[2..] == source[i + 2..i + 2 + (n - 2)];
        ClosingInBody(source, i + 2, n - 2, quote, depth);
      } else {
        assert body[1..] == source[i + 1..i + 1 + (n - 1)];
        ClosingInBody(source, i + 1, n - 1, quote, depth);
      }
    }
  }

  /** Parentheses in a literal do not count; an interpolation in a template is skipped as the brace skipper reads it. */
  lemma ClosingSkipsLiteral(source: string, i: nat, n: nat, quote: char, depth: nat)
    requires quote in {'"', '\'', '`'} && i + n + 1 < |source|
    requires source[i] == quote && Body(source[i + 1..i + 1 + n], quote) && source[i + 1 + n] == quote
    requires quote == '`' ==> forall p :: i < p <= i + n ==> source[p] != '$'
    ensures ClosingParen(source, i, None, false, depth) == ClosingParen(source, i + n + 2, None, false, depth)
  {
    ClosingInBody(source, i + 1, n, quote, depth);
  }

  /** The brace skipper reads an interpolation as stripping does when no markers are given. */
  lemma SkipsAsStripping(source: string, start: nat)
    requires start <= |source|
    ensures SkipEnd(source, start) ==
            start + |Comments.CodeText(source[start..], Comments.NoLineComment, None, {'"', '\'', '`'}, 1)|
  {
    assert Comments.Settings(Comments.NoLineComment, None, {'"', '\'', '`'}) == QUOTES;
  }
}
