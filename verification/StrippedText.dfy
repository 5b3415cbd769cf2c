/**
 What comment stripping writes, in terms of the text and the arguments of `strip_comments` alone: one equation for
 each way in which code or a literal can go on.  Every text is covered by exactly one of them and each is about a
 shorter rest, so together they leave no choice.
 */
module StrippedText {
  import opened CommentLexer
  import opened Comments
  import opened Options

  /** What the arguments mean: where a block comment starts and ends and where a line comment starts. */
  lemma SettingsMean(rest: string, line: LineComment, block: Option<(string, string)>, delims: set<char>)
    ensures var cfg := Settings(line, block, delims);
            && cfg.delims == delims
            && (BlockStarts(cfg, rest) <==> block.Some? && block.value.0 != "" && block.value.0 <= rest)
            && (BlockEnds(cfg, rest) <==> block.Some? && block.value.1 != "" && block.value.1 <= rest)
            && (AnyMarker(rest, cfg.lineMarkers) <==>
                || (line.OneMarker? && line.marker != "" && line.marker <= rest)
                || (line.Markers? && exists k :: 0 <= k < |line.markers| && line.markers[k] != "" && line.markers[k] <= rest))
  {
    match line
    case NoLineComment =>
    case OneMarker(m) => if m != "" { OneMarkerStands(rest, m); }
    case Markers(ms) =>
      hide LineMarkers, AnyMarker;
      OrderOfMarkersIsIrrelevant(rest, ms);
  }

  lemma OneMarkerStands(rest: string, m: string)
    ensures AnyMarker(rest, [m]) <==> m <= rest
  {
    assert [m][0] == m;
  }

  /** A block comment starts here. */
  predicate AtBlock(rest: string, block: Option<(string, string)>) {
    block.Some? && block.value.0 != "" && block.value.0 <= rest
  }

  /** One of the given line markers stands here. */
  predicate AtLine(rest: string, line: LineComment) {
    || (line.OneMarker? && line.marker != "" && line.marker <= rest)
    || (line.Markers? && exists k :: 0 <= k < |line.markers| && line.markers[k] != "" && line.markers[k] <= rest)
  }

  lemma Starts(rest: string, line: LineComment, block: Option<(string, string)>, delims: set<char>)
    ensures var cfg := Settings(line, block, delims);
            && cfg.delims == delims
            && (BlockStarts(cfg, rest) <==> AtBlock(rest, block))
            && (AnyMarker(rest, cfg.lineMarkers) <==> AtLine(rest, line))
  {
    hide Settings, BlockStarts, AnyMarker;
    SettingsMean(rest, line, block, delims);
  }

  // ----- code ------------------------------------------------------------------------------------------

  lemma NothingToStrip(line: LineComment, block: Option<(string, string)>, delims: set<char>, depth: nat, quote: char)
    ensures CodeText("", line, block, delims, depth) == ""
    ensures LiteralText("", line, block, delims, depth, quote) == ""
  {
    hide Settings;
  }

  /**
   A block comment reaches to the first end marker behind its start marker, or to the end of the text if there is
   none; its characters become blanks, line breaks stay, and code goes on behind it.
   */
  lemma BlockCommentText(source: string, line: LineComment, block: Option<(string, string)>, delims: set<char>,
                         depth: nat, end: nat)
    requires block.Some? && block.value.0 != "" && block.value.0 <= source
    requires |block.value.0| <= end <= |source|
    requires forall k :: |block.value.0| <= k < end ==> block.value.1 == "" || !(block.value.1 <= source[k..])
    requires end == |source| || (block.value.1 != "" && block.value.1 <= source[end..])
    ensures var n := if end == |source| then end else end + |block.value.1|;
            var text := CodeText(source, line, block, delims, depth);
            && n <= |text| && text[n..] == CodeText(source[n..], line, block, delims, depth)
            && forall k :: 0 <= k < n ==> text[k] == if source[k] == '\n' then '\n' else ' '
  {
    hide *;
    var cfg := Settings(line, block, delims);
    SettingsMean(source, line, block, delims);
    BlockMarkers(line, block, delims);
    BlockEndsAt(cfg, source, block.value.0, block.value.1, end);
    CodeTextIs(source, line, block, delims, depth);
    LexBlock(cfg, source, Start(depth));
    var n := BlockLength(cfg, source);
    CodeTextIs(source[n..], line, block, delims, depth);
    BlanksAt(source[..n]);
  }

  lemma CodeTextIs(source: string, line: LineComment, block: Option<(string, string)>, delims: set<char>, depth: nat)
    ensures Start(depth).mode == Code
    ensures CodeText(source, line, block, delims, depth) == Lex(Settings(line, block, delims), source, Start(depth))
  {
    hide Lex, Settings;
  }

  lemma BlockMarkers(line: LineComment, block: Option<(string, string)>, delims: set<char>)
    requires block.Some?
    ensures Settings(line, block, delims).blockStart == block.value.0
    ensures Settings(line, block, delims).blockEnd == block.value.1
  {
    hide LineMarkers;
  }

  lemma BlockEndsAt(cfg: Config, source: string, start: string, close: string, end: nat)
    requires cfg.blockStart == start && cfg.blockEnd == close && BlockStarts(cfg, source) && |start| <= end <= |source|
    requires forall k :: |start| <= k < end ==> close == "" || !(close <= source[k..])
    requires end == |source| || (close != "" && close <= source[end..])
    ensures BlockLength(cfg, source) == if end == |source| then end else end + |close|
  {
    hide Find;
    var rest := source[|start|..];
    if close != "" {
      var r := Find(rest, close);
      if r >= 0 {
        FindIsFirst(rest, close, r);
        Slices(source, |start|, r);
      }
      if end < |source| || r >= 0 {
        FindIsFirst(rest, close, end - |start|);
        Slices(source, |start|, end - |start|);
      }
    }
  }

  lemma {:induction false} BlanksAt(p: string)
    ensures forall k :: 0 <= k < |p| ==> Blanks(p)[k] == if p[k] == '\n' then '\n' else ' '
  {
    if p != [] { BlanksAt(p[1..]); }
  }

  /** A line comment becomes blanks up to the line break, which is read as code, or to the end of the text. */
  lemma LineCommentText(source: string, line: LineComment, block: Option<(string, string)>, delims: set<char>,
                        depth: nat, n: nat)
    requires AtLine(source, line) && !AtBlock(source, block)
    requires 0 < n <= |source| && '\n' !in source[..n] && (n == |source| || source[n] == '\n')
    ensures var text := CodeText(source, line, block, delims, depth);
            && n <= |text| && text[n..] == CodeText(source[n..], line, block, delims, depth)
            && forall k :: 0 <= k < n ==> text[k] == ' '
  {
    hide *;
    var cfg := Settings(line, block, delims);
    Starts(source, line, block, delims);
    CodeTextIs(source, line, block, delims, depth);
    CodeTextIs(source[n..], line, block, delims, depth);
    LineStarts(cfg, source, depth);
    LineBlanks(cfg, source[1..], depth, n - 1);
    Slices(source, 1, n - 1);
    FirstOf(source, n);
  }

  lemma FirstOf(source: string, n: nat)
    requires 0 < n <= |source|
    ensures source[..n][0] == source[0] && source[0] in source[..n]
  {
  }

  lemma LineStarts(cfg: Config, rest: string, depth: nat)
    requires rest != [] && rest[0] != '\n' && !BlockStarts(cfg, rest) && AnyMarker(rest, cfg.lineMarkers)
    ensures Lex(cfg, rest, Start(depth)) == [' '] + Lex(cfg, rest[1..], State(Line, depth, []))
  {
    hide BlockStarts, AnyMarker;
  }

  lemma {:induction false} LineBlanks(cfg: Config, rest: string, depth: nat, n: nat)
    requires n <= |rest| && '\n' !in rest[..n] && (n == |rest| || rest[n] == '\n')
    ensures var text := Lex(cfg, rest, State(Line, depth, []));
            && n <= |text| && text[n..] == Lex(cfg, rest[n..], Start(depth)) && forall k :: 0 <= k < n ==> text[k] == ' '
    decreases n
  {
    hide BlockStarts, AnyMarker;
    var line := State(Line, depth, []);
    if n == 0 {
      LexLineEnd(cfg, rest, line);
      assert rest[0..] == rest;
    } else {
      assert rest[0] in rest[..n];
      LexOne(cfg, rest, line, ' ', line);
      assert rest[..n][1..] == rest[1..][..n - 1];
      LineBlanks(cfg, rest[1..], depth, n - 1);
      Slices(rest, 1, n - 1);
    }
  }

  /**
   A character at which no comment starts is kept.  A delimiter opens a literal; inside an interpolation an opening
   brace goes one deeper, a closing one goes back, and the one that closes the interpolation ends the text.
   */
  lemma CodeCharacterText(source: string, line: LineComment, block: Option<(string, string)>, delims: set<char>, depth: nat)
    requires source != [] && !AtBlock(source, block) && !AtLine(source, line)
    ensures var c, rest := source[0], source[1..];
            CodeText(source, line, block, delims, depth) == [c] + (
              if c in delims then LiteralText(rest, line, block, delims, depth, c)
              else if depth == 0 then CodeText(rest, line, block, delims, 0)
              else if c == '{' then CodeText(rest, line, block, delims, depth + 1)
              else if c == '}' && depth == 1 then ""
              else if c == '}' then CodeText(rest, line, block, delims, depth - 1)
              else CodeText(rest, line, block, delims, depth))
  {
    hide Settings, BlockStarts, AnyMarker, AtBlock, AtLine;
    Starts(source, line, block, delims);
    assert Lex(Settings(line, block, delims), source[1..], State(Done, 0, [])) == "";
  }

  // ----- literals ----------------------------------------------------------------------------------------

  /**
   In a literal a backslash keeps the character behind it from meaning anything, in a template `${` opens an
   interpolation, the delimiter ends the literal, and everything else is part of it.  All of it is kept.
   */
  lemma LiteralCharacterText(source: string, line: LineComment, block: Option<(string, string)>, delims: set<char>,
                             depth: nat, quote: char)
    requires source != [] && !(quote == '`' && |source| > 1 && source[0] == '$' && source[1] == '{')
    ensures var c, rest := source[0], source[1..];
            LiteralText(source, line, block, delims, depth, quote) ==
              if c == '\\' && rest != [] then [c, rest[0]] + LiteralText(rest[1..], line, block, delims, depth, quote)
              else if c == '\\' then [c]
              else if c == quote then [c] + CodeText(rest, line, block, delims, depth)
              else [c] + LiteralText(rest, line, block, delims, depth, quote)
  {
    hide Settings, BlockStarts, AnyMarker;
    var s := State(Text(quote, false), depth, []);
    if source[0] == '\\' {
      LexOne(Settings(line, block, delims), source, s, '\\', State(Text(quote, true), depth, []));
      if source[1..] != [] {
        LexOne(Settings(line, block, delims), source[1..], State(Text(quote, true), depth, []), source[1], s);
      }
    }
  }

  /** An interpolation: its code is stripped by itself up to the closing brace, and the template goes on behind it. */
  lemma InterpolationText(source: string, line: LineComment, block: Option<(string, string)>, delims: set<char>, depth: nat)
    requires |source| > 1 && source[0] == '$' && source[1] == '{'
    ensures var inner := CodeText(source[2..], line, block, delims, 1);
            && |inner| <= |source| - 2
            && LiteralText(source, line, block, delims, depth, '`') ==
               "${" + inner + LiteralText(source[2 + |inner|..], line, block, delims, depth, '`')
  {
    hide Settings, Lex;
    LexInterpolation(Settings(line, block, delims), source, depth);
  }

  // ----- comments and literals as a whole ------------------------------------------------------------------

  /** Text outside interpolations in which no comment and no literal starts is kept. */
  lemma {:induction false} PlainCodeText(code: string, rest: string, line: LineComment, block: Option<(string, string)>,
                                         delims: set<char>)
    requires forall k :: 0 <= k < |code| ==>
      code[k] !in delims && !AtBlock((code + rest)[k..], block) && !AtLine((code + rest)[k..], line)
    ensures CodeText(code + rest, line, block, delims, 0) == code + CodeText(rest, line, block, delims, 0)
  {
    hide CodeText, AtBlock, AtLine;
    if code == [] {
      assert code + rest == rest;
    } else {
      var source := code + rest;
      assert source[0..] == source && source[1..] == code[1..] + rest && source[0] == code[0];
      CodeCharacterText(source, line, block, delims, 0);
      forall k | 0 <= k < |code[1..]|
        ensures code[1..][k] !in delims
        ensures !AtBlock((code[1..] + rest)[k..], block) && !AtLine((code[1..] + rest)[k..], line)
      {
        assert (code[1..] + rest)[k..] == source[k + 1..];
        assert code[1..][k] == code[k + 1];
      }
      PlainCodeText(code[1..], rest, line, block, delims);
    }
  }

  /** Code, a block comment and more code: the code is kept, the comment is blanked from marker to marker. */
  lemma CodeAndBlockComment(code: string, open: string, body: string, close: string, rest: string, line: LineComment,
                            delims: set<char>)
    requires open != "" && close != ""
    requires var source := code + open + body + close + rest;
             forall k :: 0 <= k < |code| ==>
               code[k] !in delims && !AtBlock(source[k..], Some((open, close))) && !AtLine(source[k..], line)
    requires forall k :: 0 <= k < |body| ==> !(close <= (body + close + rest)[k..])
    ensures var text := CodeText(code + open + body + close + rest, line, Some((open, close)), delims, 0);
            var end := |code| + |open| + |body| + |close|;
            && |code| <= end <= |text| && text[..|code|] == code
            && text[end..] == CodeText(rest, line, Some((open, close)), delims, 0)
            && forall k :: |code| <= k < end ==> text[k] == if (open + body + close)[k - |code|] == '\n' then '\n' else ' '
  {
    hide CodeText, AtBlock, AtLine;
    var behind := open + body + close + rest;
    assert code + open + body + close + rest == code + behind;
    PlainCodeText(code, behind, line, Some((open, close)), delims);
    forall k | |open| <= k < |open| + |body| ensures !(close <= behind[k..]) {
      assert behind[k..] == (body + close + rest)[k - |open|..];
    }
    var end := |open| + |body|;
    assert behind[end..] == close + rest && behind[end + |close|..] == rest;
    BlockCommentText(behind, line, Some((open, close)), delims, 0, end);
    forall k | 0 <= k < end + |close| ensures behind[k] == (open + body + close)[k] { }
  }

  /** No delimiter without a backslash, no lone backslash at the end and, in a template, no interpolation. */
  predicate Inside(body: string, quote: char) {
    body == "" ||
    if body[0] == '\\' then |body| > 1 && Inside(body[2..], quote)
    else body[0] != quote && !(quote == '`' && |body| > 1 && body[..2] == "${") && Inside(body[1..], quote)
  }

  /** A literal is kept as it stands, comment markers in it included, and code goes on behind it. */
  lemma LiteralIsKept(body: string, rest: string, line: LineComment, block: Option<(string, string)>, delims: set<char>,
                      depth: nat, quote: char)
    requires quote in delims && Inside(body, quote) && quote != '\\'
    requires !AtBlock([quote] + body + [quote] + rest, block) && !AtLine([quote] + body + [quote] + rest, line)
    ensures CodeText([quote] + body + [quote] + rest, line, block, delims, depth) ==
            [quote] + body + [quote] + CodeText(rest, line, block, delims, depth)
  {
    hide CodeText, LiteralText, AtBlock, AtLine, Inside;
    var source := [quote] + body + [quote] + rest;
    assert source[1..] == body + [quote] + rest;
    CodeCharacterText(source, line, block, delims, depth);
    RestOfLiteral(body, rest, line, block, delims, depth, quote);
  }

  lemma {:induction false} RestOfLiteral(body: string, rest: string, line: LineComment, block: Option<(string, string)>,
                                         delims: set<char>, depth: nat, quote: char)
    requires Inside(body, quote) && quote != '\\'
    ensures LiteralText(body + [quote] + rest, line, block, delims, depth, quote) ==
            body + [quote] + CodeText(rest, line, block, delims, depth)
  {
    hide CodeText, LiteralText;
    var source := body + [quote] + rest;
    LiteralCharacterText(source, line, block, delims, depth, quote);
    if body == "" {
      assert source[1..] == rest;
    } else if body[0] == '\\' {
      assert source[1..][1..] == body[2..] + [quote] + rest && source[1..][0] == body[1];
      RestOfLiteral(body[2..], rest, line, block, delims, depth, quote);
      assert body == [body[0], body[1]] + body[2..];
    } else {
      assert source[1..] == body[1..] + [quote] + rest;
      RestOfLiteral(body[1..], rest, line, block, delims, depth, quote);
    }
  }
}
