/**
 `_split_top_level` and `_logical_lines` of `backend/app/parsing/extract.py`, with the quote-and-bracket state they
 share with `_unmatched`.
 */
module TextSplit {
  import opened Options
  import opened Texts

  /** Inside a string literal or not, and how many brackets are open.  A closing bracket never goes below zero. */
  datatype Nesting = Nesting(inStr: Option<char>, escape: bool, depth: nat)

  const OUTSIDE: Nesting := Nesting(None, false, 0)

  predicate IsQuote(ch: char) {
    ch in {'"', '\'', '`'}
  }

  function Next(s: Nesting, ch: char): Nesting {
    if s.inStr.Some? then
      if s.escape then s.(escape := false)
      else if ch == '\\' then s.(escape := true)
      else if s.inStr == Some(ch) then s.(inStr := None)
      else s
    else if IsQuote(ch) then s.(inStr := Some(ch))
    else if ch in "([{" then s.(depth := s.depth + 1)
    else if ch in ")]}" then s.(depth := if s.depth > 0 then s.depth - 1 else 0)
    else s
  }

  predicate Settled(s: Nesting) {
    s.inStr.None? ==> !s.escape
  }

  /** `ch` is a separator outside strings and brackets. */
  predicate IsCut(s: Nesting, ch: char, sep: char) {
    s.inStr.None? && !IsQuote(ch) && ch == sep && Next(s, ch).depth == 0
  }

  // ----- splitting ------------------------------------------------------------------------------------------

  /** The text between the cuts, the piece after the last cut included even when it is empty. */
  function Pieces(text: string, sep: char, s: Nesting): (p: seq<string>)
    ensures p != []
  {
    if text == "" then [""]
    else
      var rest := Pieces(text[1..], sep, Next(s, text[0]));
      if IsCut(s, text[0], sep) then [""] + rest else [[text[0]] + rest[0]] + rest[1..]
  }

  function WithoutEmptyTail(p: seq<string>): seq<string>
    requires p != []
  {
    if p[|p| - 1] == "" then p[..|p| - 1] else p
  }

  function Split(text: string, sep: char): seq<string> {
    WithoutEmptyTail(Pieces(text, sep, OUTSIDE))
  }

  /** The pieces still to come, `p`, behind those already collected. */
  function Resume(parts: seq<string>, buf: string, p: seq<string>): seq<string>
    requires p != []
  {
    parts + [buf + p[0]] + p[1..]
  }

  /** `_split_top_level`. */
  method SplitTopLevel(text: string, sep: char) returns (parts: seq<string>)
    ensures parts == Split(text, sep)
  {
    hide Pieces, Resume, WithoutEmptyTail;
    parts := [];
    var buf := "";
    var depth: nat := 0;
    var inStr: Option<char>, escape := None, false;
    ghost var whole := Pieces(text, sep, OUTSIDE);
    assert text[0..] == text;
    ResumeStart(whole);
    for i := 0 to |text|
      invariant Settled(Nesting(inStr, escape, depth))
      invariant Resume(parts, buf, Pieces(text[i..], sep, Nesting(inStr, escape, depth))) == whole
    {
      var ch := text[i];
      PiecesStep(text, i, sep, Nesting(inStr, escape, depth), parts, buf);
      if inStr.Some? {
        buf := buf + [ch];
        if escape {
          escape := false;
        } else if ch == '\\' {
          escape := true;
        } else if inStr == Some(ch) {
          inStr := None;
        }
        continue;
      }
      if IsQuote(ch) {
        inStr := Some(ch);
        buf := buf + [ch];
        continue;
      }
      if ch in "([{" {
        depth := depth + 1;
      } else if ch in ")]}" {
        depth := if depth > 0 then depth - 1 else 0;
      }
      if ch == sep && depth == 0 {
        parts := parts + [buf];
        buf := "";
        continue;
      }
      buf := buf + [ch];
    }
    ResumeEnd(text[|text|..], sep, Nesting(inStr, escape, depth), parts, buf);
    if buf != "" {
      parts := parts + [buf];
    }
  }

  lemma ResumeStart(p: seq<string>)
    requires p != []
    ensures Resume([], "", p) == p
  {
    assert "" + p[0] == p[0];
  }

  lemma ResumeEnd(rest: string, sep: char, s: Nesting, parts: seq<string>, buf: string)
    requires rest == ""
    ensures WithoutEmptyTail(Resume(parts, buf, Pieces(rest, sep, s))) == if buf != "" then parts + [buf] else parts
  {
    assert buf + "" == buf;
    assert Resume(parts, buf, Pieces(rest, sep, s)) == parts + [buf];
  }

  lemma PiecesStep(text: string, i: nat, sep: char, s: Nesting, parts: seq<string>, buf: string)
    requires i < |text|
    ensures var before := Resume(parts, buf, Pieces(text[i..], sep, s));
            var rest := Pieces(text[i + 1..], sep, Next(s, text[i]));
            before == if IsCut(s, text[i], sep) then Resume(parts + [buf], "", rest) else Resume(parts, buf + [text[i]], rest)
  {
    assert text[i..][1..] == text[i + 1..];
    var rest := Pieces(text[i + 1..], sep, Next(s, text[i]));
    hide IsCut, Next;
    assert buf + ([text[i]] + rest[0]) == buf + [text[i]] + rest[0];
    assert "" + rest[0] == rest[0] && buf + "" == buf;
  }

  function Join(parts: seq<string>, sep: char): string {
    if parts == [] then ""
    else if |parts| == 1 then parts[0]
    else parts[0] + [sep] + Join(parts[1..], sep)
  }

  lemma {:induction false} JoinPieces(text: string, sep: char, s: Nesting)
    ensures Join(Pieces(text, sep, s), sep) == text
  {
    if text != "" {
      var rest := Pieces(text[1..], sep, Next(s, text[0]));
      JoinPieces(text[1..], sep, Next(s, text[0]));
      if IsCut(s, text[0], sep) {
        assert ([""] + rest)[1..] == rest;
      } else {
        assert ([[text[0]] + rest[0]] + rest[1..])[1..] == rest[1..];
      }
    }
  }

  lemma {:induction false} JoinSnoc(parts: seq<string>, sep: char)
    requires parts != []
    ensures Join(parts + [""], sep) == Join(parts, sep) + [sep]
  {
    if |parts| == 1 {
      assert (parts + [""])[1..] == [""];
    } else {
      assert (parts + [""])[1..] == parts[1..] + [""];
      JoinSnoc(parts[1..], sep);
    }
  }

  /** Joining the parts gives back the text, without the separator that ends it if one does. */
  lemma SplitRejoins(text: string, sep: char)
    ensures var p := Pieces(text, sep, OUTSIDE);
            Join(Split(text, sep), sep) + (if text != "" && p[|p| - 1] == "" then [sep] else "") == text
  {
    var p := Pieces(text, sep, OUTSIDE);
    JoinPieces(text, sep, OUTSIDE);
    if p[|p| - 1] == "" && text != "" {
      assert |p| > 1;
      assert p == p[..|p| - 1] + [""];
      JoinSnoc(p[..|p| - 1], sep);
    }
  }

  /** No character of `p`, read from state `s`, is a cut. */
  predicate Uncut(p: string, sep: char, s: Nesting) {
    p == "" || (!IsCut(s, p[0], sep) && Uncut(p[1..], sep, Next(s, p[0])))
  }

  lemma {:induction false} UncutIsOnePiece(p: string, sep: char, s: Nesting)
    requires Uncut(p, sep, s)
    ensures Pieces(p, sep, s) == [p]
  {
    if p != "" {
      UncutIsOnePiece(p[1..], sep, Next(s, p[0]));
      assert [p[0]] + p[1..] == p;
    }
  }

  lemma {:induction false} PiecesAreUncut(text: string, sep: char, s: Nesting, k: nat)
    requires Settled(s) && k < |Pieces(text, sep, s)|
    ensures Uncut(Pieces(text, sep, s)[k], sep, if k == 0 then s else OUTSIDE)
  {
    if text != "" {
      var s' := Next(s, text[0]);
      var rest := Pieces(text[1..], sep, s');
      if IsCut(s, text[0], sep) {
        assert s' == OUTSIDE;
        if k > 0 { PiecesAreUncut(text[1..], sep, s', k - 1); }
      } else {
        PiecesAreUncut(text[1..], sep, s', k);
        assert k == 0 ==> ([text[0]] + rest[0])[1..] == rest[0];
      }
    }
  }

  /** A part has no top-level separator left: splitting it again gives itself. */
  lemma PartsDoNotSplit(text: string, sep: char, k: nat)
    requires k < |Split(text, sep)| && Split(text, sep)[k] != ""
    ensures Split(Split(text, sep)[k], sep) == [Split(text, sep)[k]]
  {
    PiecesAreUncut(text, sep, OUTSIDE, k);
    UncutIsOnePiece(Split(text, sep)[k], sep, OUTSIDE);
  }

  // ----- logical lines --------------------------------------------------------------------------------------

  function Fold(text: string, s: Nesting): Nesting {
    if text == "" then s else Fold(text[1..], Next(s, text[0]))
  }

  /** `_unmatched`. */
  method Unmatched(text: string) returns (depth: nat)
    ensures depth == Fold(text, OUTSIDE).depth
  {
    depth := 0;
    var inStr: Option<char>, escape := None, false;
    for i := 0 to |text|
      invariant Settled(Nesting(inStr, escape, depth))
      invariant Fold(text[i..], Nesting(inStr, escape, depth)) == Fold(text, OUTSIDE)
    {
      var ch := text[i];
      assert text[i..][1..] == text[i + 1..];
      if inStr.Some? {
        if escape {
          escape := false;
        } else if ch == '\\' {
          escape := true;
        } else if inStr == Some(ch) {
          inStr := None;
        }
        continue;
      }
      if IsQuote(ch) {
        inStr := Some(ch);
      } else if ch in "([{" {
        depth := depth + 1;
      } else if ch in ")]}" {
        depth := if depth > 0 then depth - 1 else 0;
      }
    }
  }

  predicate EndsWithAny(text: string, ends: seq<string>) {
    exists k :: 0 <= k < |ends| && |ends[k]| <= |text| && text[|text| - |ends[k]|..] == ends[k]
  }

  predicate StartsWithAny(text: string, starts: seq<string>) {
    exists k :: 0 <= k < |starts| && starts[k] <= text
  }

  /** What `_should_join` decides about a statement so far and the next line. */
  predicate Joins(current: string, next: string, space: char -> bool) {
    || Fold(current, OUTSIDE).depth > 0
    || (&& Strip(next, space) != ""
        && (|| EndsWithAny(TrimRight(current, space),
                 [".", "?.", "::", "->", "=>", "=", ",", "\\", "+", "(", "{", "["])
            || StartsWithAny(Strip(next, space), ["{", ".", "?.", "->", "::"])))
  }

  method ShouldJoin(current: string, next: string, space: char -> bool) returns (join: bool)
    ensures join == Joins(current, next, space)
  {
    hide EndsWithAny, StartsWithAny, Strip, TrimRight, Fold;
    var strippedNext := Strip(next, space);
    var open := Unmatched(current);
    if strippedNext == "" { return open > 0; }
    if open > 0 { return true; }
    var trimmed := TrimRight(current, space);
    if EndsWithAny(trimmed, [".", "?.", "::", "->", "=>", "=", ",", "\\", "+", "(", "{", "["]) { return true; }
    if StartsWithAny(strippedNext, ["{", ".", "?.", "->", "::"]) { return true; }
    return false;
  }

  function JoinLines(lines: seq<string>): string {
    Join(lines, '\n')
  }

  /** Lines `lo` to `hi` form one statement: each continues what stands before it, and `hi` does not. */
  predicate Statement(lines: seq<string>, lo: nat, hi: nat, space: char -> bool)
    requires lo < hi <= |lines|
  {
    && (forall m :: lo < m < hi ==> Joins(JoinLines(lines[lo..m]), lines[m], space))
    && (hi < |lines| ==> !Joins(JoinLines(lines[lo..hi]), lines[hi], space))
  }

  predicate IsSpan(lines: seq<string>, span: (nat, string), lo: nat, hi: nat, space: char -> bool) {
    lo < hi <= |lines| && span == (lo + 1, JoinLines(lines[lo..hi])) && Statement(lines, lo, hi, space)
  }

  /** `spans` lists the statements between consecutive `cuts`, with one-based start lines. */
  predicate IsGrouping(lines: seq<string>, spans: seq<(nat, string)>, cuts: seq<nat>, space: char -> bool) {
    && |cuts| == |spans| + 1 && cuts[0] == 0 && cuts[|spans|] == |lines|
    && forall k :: 0 <= k < |spans| ==> IsSpan(lines, spans[k], cuts[k], cuts[k + 1], space)
  }

  lemma {:induction false} JoinAppend(parts: seq<string>, last: string, sep: char)
    requires parts != []
    ensures Join(parts + [last], sep) == Join(parts, sep) + [sep] + last
  {
    if |parts| == 1 {
      assert (parts + [last])[1..] == [last];
    } else {
      assert (parts + [last])[1..] == parts[1..] + [last];
      JoinAppend(parts[1..], last, sep);
    }
  }

  /** `_logical_lines`. */
  method LogicalLines(lines: seq<string>, space: char -> bool) returns (spans: seq<(nat, string)>)
    ensures exists cuts :: IsGrouping(lines, spans, cuts, space)
  {
    hide Joins, JoinLines, IsSpan;
    spans := [];
    ghost var cuts: seq<nat> := [0];
    var i, n := 0, |lines|;
    while i < n
      invariant 0 <= i <= n && |cuts| == |spans| + 1 && cuts[0] == 0 && cuts[|spans|] == i
      invariant forall k :: 0 <= k < |spans| ==> IsSpan(lines, spans[k], cuts[k], cuts[k + 1], space)
      decreases n - i
    {
      var start := i + 1;
      var text := lines[i];
      ghost var lo := i;
      OneLine(lines, lo);
      i := i + 1;
      while i < n
        invariant lo < i <= n && text == JoinLines(lines[lo..i])
        invariant forall m :: lo < m < i ==> Joins(JoinLines(lines[lo..m]), lines[m], space)
        decreases n - i
      {
        var join := ShouldJoin(text, lines[i], space);
        if !join { break; }
        OneLineMore(lines, lo, i);
        text := text + "\n" + lines[i];
        i := i + 1;
      }
      SpanMade(lines, (start, text), lo, i, space);
      spans, cuts := spans + [(start, text)], cuts + [i];
    }
    assert IsGrouping(lines, spans, cuts, space);
  }

  lemma SpanMade(lines: seq<string>, span: (nat, string), lo: nat, hi: nat, space: char -> bool)
    requires lo < hi <= |lines| && span == (lo + 1, JoinLines(lines[lo..hi])) && Statement(lines, lo, hi, space)
    ensures IsSpan(lines, span, lo, hi, space)
  {
  }

  lemma OneLine(lines: seq<string>, lo: nat)
    requires lo < |lines|
    ensures JoinLines(lines[lo..lo + 1]) == lines[lo]
  {
  }

  lemma OneLineMore(lines: seq<string>, lo: nat, i: nat)
    requires lo < i < |lines|
    ensures JoinLines(lines[lo..i + 1]) == JoinLines(lines[lo..i]) + "\n" + lines[i]
  {
    assert lines[lo..i + 1] == lines[lo..i] + [lines[i]];
    JoinAppend(lines[lo..i], lines[i], '\n');
  }

  function StatementTexts(spans: seq<(nat, string)>): seq<string> {
    seq(|spans|, k requires 0 <= k < |spans| => spans[k].1)
  }

  /** No line is lost, moved or repeated: the statements joined by line breaks are the input. */
  lemma GroupingRejoins(lines: seq<string>, spans: seq<(nat, string)>, cuts: seq<nat>, space: char -> bool)
    requires IsGrouping(lines, spans, cuts, space)
    ensures JoinLines(StatementTexts(spans)) == JoinLines(lines)
  {
    RejoinFrom(lines, spans, cuts, space, |spans|);
    assert StatementTexts(spans)[..|spans|] == StatementTexts(spans) && lines[..cuts[|spans|]] == lines;
  }

  lemma {:induction false} RejoinFrom(lines: seq<string>, spans: seq<(nat, string)>, cuts: seq<nat>, space: char -> bool, k: nat)
    requires IsGrouping(lines, spans, cuts, space) && k <= |spans|
    ensures cuts[k] <= |lines|
    ensures JoinLines(StatementTexts(spans)[..k]) == JoinLines(lines[..cuts[k]])
    decreases k
  {
    hide Statement;
    if k > 0 {
      RejoinFrom(lines, spans, cuts, space, k - 1);
      var t := StatementTexts(spans)[..k - 1];
      var lo, hi := cuts[k - 1], cuts[k];
      assert StatementTexts(spans)[..k] == t + [spans[k - 1].1];
      assert lines[..hi] == lines[..lo] + lines[lo..hi];
      if k > 1 {
        CutsGrow(lines, spans, cuts, space, k - 1);
        JoinAppend(t, spans[k - 1].1, '\n');
        JoinConcat(lines[..lo], lines[lo..hi], '\n');
      } else {
        assert t == [] && lines[..lo] == [];
      }
    }
  }

  lemma {:induction false} CutsGrow(lines: seq<string>, spans: seq<(nat, string)>, cuts: seq<nat>, space: char -> bool, k: nat)
    requires IsGrouping(lines, spans, cuts, space) && k <= |spans|
    ensures k <= cuts[k] <= |lines|
    decreases k
  {
    hide Statement, JoinLines;
    if k > 0 { CutsGrow(lines, spans, cuts, space, k - 1); }
  }

  lemma {:induction false} JoinConcat(a: seq<string>, b: seq<string>, sep: char)
    requires a != [] && b != []
    ensures Join(a + b, sep) == Join(a, sep) + [sep] + Join(b, sep)
  {
    if |a| == 1 {
      assert (a + b)[1..] == b;
    } else {
      assert (a + b)[1..] == a[1..] + b;
      JoinConcat(a[1..], b, sep);
    }
  }

  /** The grouping is the only one whose statements are maximal. */
  lemma GroupingIsUnique(lines: seq<string>, s: seq<(nat, string)>, c: seq<nat>, s': seq<(nat, string)>, c': seq<nat>,
    space: char -> bool)
    requires IsGrouping(lines, s, c, space) && IsGrouping(lines, s', c', space)
    ensures s == s' && c == c'
  {
    CutsAgree(lines, s, c, s', c', space, if |s| < |s'| then |s| else |s'|);
    if |s| < |s'| {
      MoreLines(lines, s', c', space, |s|);
    } else if |s'| < |s| {
      MoreLines(lines, s, c, space, |s'|);
    }
  }

  lemma MoreLines(lines: seq<string>, s: seq<(nat, string)>, c: seq<nat>, space: char -> bool, k: nat)
    requires IsGrouping(lines, s, c, space) && k < |s|
    ensures c[k] < |lines|
  {
    assert IsSpan(lines, s[k], c[k], c[k + 1], space);
  }

  lemma {:induction false} CutsAgree(lines: seq<string>, s: seq<(nat, string)>, c: seq<nat>, s': seq<(nat, string)>,
    c': seq<nat>, space: char -> bool, k: nat)
    requires IsGrouping(lines, s, c, space) && IsGrouping(lines, s', c', space)
    requires k <= |s| && k <= |s'|
    ensures c[..k + 1] == c'[..k + 1] && s[..k] == s'[..k]
    decreases k
  {
    hide Joins, JoinLines;
    if k > 0 {
      CutsAgree(lines, s, c, s', c', space, k - 1);
      var lo := c[k - 1];
      assert c'[k - 1] == lo by { assert c[..k][k - 1] == c'[..k][k - 1]; }
      assert Statement(lines, lo, c[k], space) && Statement(lines, lo, c'[k], space);
      assert c[k] == c'[k];
      assert s[k - 1] == s'[k - 1];
      assert c[..k + 1] == c[..k] + [c[k]] && c'[..k + 1] == c'[..k] + [c'[k]];
      assert s[..k] == s[..k - 1] + [s[k - 1]] && s'[..k] == s'[..k - 1] + [s'[k - 1]];
    }
  }
}
