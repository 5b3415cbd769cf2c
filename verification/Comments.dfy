/**
 `backend/app/parsing/comments.py`: comment stripping by two scanners that call each other on slices of the text,
 proved to compute what the one-pass lexer of `CommentLexer` writes.
 */
module Comments {
  import opened CommentLexer
  import opened Options

  datatype LineComment = NoLineComment | OneMarker(marker: string) | Markers(markers: seq<string>)

  // ----- markers --------------------------------------------------------------------------------------

  function NonEmpty(markers: seq<string>): seq<string> {
    if markers == [] then []
    else (if markers[0] != "" then [markers[0]] else []) + NonEmpty(markers[1..])
  }

  function InsertByLength(m: string, longestFirst: seq<string>): seq<string> {
    if longestFirst == [] || |m| >= |longestFirst[0]| then [m] + longestFirst
    else [longestFirst[0]] + InsertByLength(m, longestFirst[1..])
  }

  /** Stable sort, longest first. */
  function LongestFirst(markers: seq<string>): seq<string> {
    if markers == [] then [] else InsertByLength(markers[0], LongestFirst(markers[1..]))
  }

  /** `_line_markers`. */
  function LineMarkers(line: LineComment): seq<string> {
    match line
    case NoLineComment => []
    case OneMarker(m) => if m != "" then [m] else []
    case Markers(ms) => LongestFirst(NonEmpty(ms))
  }

  function Settings(line: LineComment, block: Option<(string, string)>, delims: set<char>): Config {
    match block
    case None => Config(LineMarkers(line), "", "", delims)
    case Some(b) => Config(LineMarkers(line), b.0, b.1, delims)
  }

  /** What stripping writes for code; `depth` counts the open braces of the interpolation and is 0 outside. */
  function CodeText(source: string, line: LineComment, block: Option<(string, string)>, delims: set<char>, depth: nat)
    : string
  {
    Lex(Settings(line, block, delims), source, Start(depth))
  }

  /** What it writes for the inside of a literal that `quote` opened, and for all behind it. */
  function LiteralText(source: string, line: LineComment, block: Option<(string, string)>, delims: set<char>, depth: nat,
                       quote: char)
    : string
  {
    Lex(Settings(line, block, delims), source, State(Text(quote, false), depth, []))
  }

  /** `_starts_with_any`. */
  function StartsWithAny(rest: string, markers: seq<string>): (found: Option<string>)
    ensures found.Some? <==> AnyMarker(rest, markers)
    ensures found.Some? ==> found.value in markers && found.value <= rest
  {
    if markers == [] then None
    else if markers[0] <= rest then assert AnyMarker(rest, markers); Some(markers[0])
    else
      assert AnyMarker(rest, markers[1..]) ==> AnyMarker(rest, markers) by { AnyMarkerTail(rest, markers); }
      assert AnyMarker(rest, markers) ==> AnyMarker(rest, markers[1..]) by { AnyMarkerTail(rest, markers); }
      StartsWithAny(rest, markers[1..])
  }

  lemma AnyMarkerTail(rest: string, markers: seq<string>)
    requires markers != []
    ensures AnyMarker(rest, markers) <==> markers[0] <= rest || AnyMarker(rest, markers[1..])
  {
    if AnyMarker(rest, markers[1..]) {
      var k :| 0 <= k < |markers[1..]| && markers[1..][k] <= rest;
      assert markers[k + 1] <= rest;
    }
    if AnyMarker(rest, markers) {
      var k :| 0 <= k < |markers| && markers[k] <= rest;
      assert k > 0 ==> markers[1..][k - 1] <= rest;
    }
  }

  lemma {:induction false} InsertedMarker(rest: string, m: string, ms: seq<string>)
    ensures AnyMarker(rest, InsertByLength(m, ms)) <==> m <= rest || AnyMarker(rest, ms)
  {
    hide AnyMarker;
    var r := InsertByLength(m, ms);
    AnyMarkerTail(rest, r);
    if ms == [] || |m| >= |ms[0]| {
      assert r[1..] == ms;
    } else {
      AnyMarkerTail(rest, ms);
      assert r[1..] == InsertByLength(m, ms[1..]);
      InsertedMarker(rest, m, ms[1..]);
    }
  }

  /** Sorting the markers changes nothing: a comment starts where any non-empty marker stands. */
  lemma {:induction false} OrderOfMarkersIsIrrelevant(rest: string, ms: seq<string>)
    ensures AnyMarker(rest, LineMarkers(Markers(ms))) <==> exists k :: 0 <= k < |ms| && ms[k] != "" && ms[k] <= rest
  {
    if ms == [] {
      assert LongestFirst(NonEmpty(ms)) == [];
    } else {
      OrderOfMarkersIsIrrelevant(rest, ms[1..]);
      var tail := NonEmpty(ms[1..]);
      if ms[0] != "" {
        assert NonEmpty(ms)[1..] == tail;
        InsertedMarker(rest, ms[0], LongestFirst(tail));
      } else {
        assert NonEmpty(ms) == tail;
      }
      if exists k :: 0 <= k < |ms| && ms[k] != "" && ms[k] <= rest {
        var k :| 0 <= k < |ms| && ms[k] != "" && ms[k] <= rest;
        if k > 0 { assert ms[1..][k - 1] == ms[k]; }
      }
      if exists k :: 0 <= k < |ms[1..]| && ms[1..][k] != "" && ms[1..][k] <= rest {
        var k :| 0 <= k < |ms[1..]| && ms[1..][k] != "" && ms[1..][k] <= rest;
        assert ms[k + 1] != "" && ms[k + 1] <= rest;
      }
    }
  }

  // ----- pieces of the lexer's run ----------------------------------------------------------------------

  function Blanks(p: string): (b: string)
    ensures |b| == |p|
  {
    if p == [] then [] else [Blank(p[0])] + Blanks(p[1..])
  }

  /** `rest.find(pat)`. */
  function Find(rest: string, pat: string): (r: int)
    ensures r == -1 || 0 <= r <= |rest| - |pat|
    decreases |rest|
  {
    if pat <= rest then 0
    else if rest == [] then -1
    else
      var r := Find(rest[1..], pat);
      if r == -1 then -1 else r + 1
  }

  /** The position found is the first at which `pat` stands; -1 means there is none. */
  lemma {:induction false} FindIsFirst(rest: string, pat: string, k: nat)
    requires k <= |rest|
    ensures var r := Find(rest, pat);
            (r >= 0 ==> pat <= rest[r..]) && (r == -1 || k < r ==> !(pat <= rest[k..]))
    decreases |rest|
  {
    assert rest[0..] == rest;
    if !(pat <= rest) && rest != [] {
      FindIsFirst(rest[1..], pat, if k > 0 then k - 1 else 0);
      var r := Find(rest[1..], pat);
      if r >= 0 { assert rest[1..][r..] == rest[r + 1..]; }
      if k > 0 { assert rest[1..][k - 1..] == rest[k..]; }
    }
  }

  /** Characters up to and including the end marker; all of them if there is none. */
  function BodyLength(cfg: Config, rest: string): (n: nat)
    ensures n <= |rest|
  {
    var end := if cfg.blockEnd != "" then Find(rest, cfg.blockEnd) else -1;
    if end == -1 then |rest| else end + |cfg.blockEnd|
  }

  lemma BodyLengthStep(cfg: Config, rest: string)
    requires rest != []
    ensures BodyLength(cfg, rest) == if BlockEnds(cfg, rest) then |cfg.blockEnd| else 1 + BodyLength(cfg, rest[1..])
  {
  }

  /** Length of the block comment that starts at `rest`; without an end it runs to the end of the text. */
  function BlockLength(cfg: Config, rest: string): (n: nat)
    requires BlockStarts(cfg, rest)
    ensures 0 < n <= |rest|
  {
    |cfg.blockStart| + BodyLength(cfg, rest[|cfg.blockStart|..])
  }

  lemma {:induction false} LexBlockOpen(cfg: Config, rest: string, s: State, left: nat)
    requires 0 < left <= |rest| && s.mode == BlockOpen(left)
    ensures Lex(cfg, rest, s) == Blanks(rest[..left]) + Lex(cfg, rest[left..], s.(mode := Block))
    decreases left
  {
    LexOne(cfg, rest, s, Blank(rest[0]), s.(mode := if left <= 1 then Block else BlockOpen(left - 1)));
    assert rest[..left][1..] == rest[1..][..left - 1];
    if left > 1 {
      LexBlockOpen(cfg, rest[1..], s.(mode := BlockOpen(left - 1)), left - 1);
      assert rest[1..][left - 1..] == rest[left..];
    }
  }

  lemma {:induction false} LexBlockClose(cfg: Config, rest: string, s: State, left: nat)
    requires 0 < left <= |rest| && s.mode == BlockClose(left)
    ensures Lex(cfg, rest, s) == Blanks(rest[..left]) + Lex(cfg, rest[left..], s.(mode := Code))
    decreases left
  {
    LexOne(cfg, rest, s, Blank(rest[0]), s.(mode := if left <= 1 then Code else BlockClose(left - 1)));
    assert rest[..left][1..] == rest[1..][..left - 1];
    if left > 1 {
      LexBlockClose(cfg, rest[1..], s.(mode := BlockClose(left - 1)), left - 1);
      assert rest[1..][left - 1..] == rest[left..];
    }
  }

  lemma Slices(rest: string, a: nat, b: nat)
    requires a + b <= |rest|
    ensures rest[a..][b..] == rest[a + b..] && rest[a..][..b] == rest[a..a + b]
    ensures rest[..a] + rest[a..a + b] == rest[..a + b]
  {
  }

  lemma LexBlankStep(cfg: Config, rest: string, s: State, s': State, n: nat)
    requires 0 < n <= |rest| && s.mode != Done && Step(cfg, rest, s) == (Blank(rest[0]), s')
    requires Lex(cfg, rest[1..], s') == Blanks(rest[1..n]) + Lex(cfg, rest[n..], s.(mode := Code))
    ensures Lex(cfg, rest, s) == Blanks(rest[..n]) + Lex(cfg, rest[n..], s.(mode := Code))
  {
    hide Step;
    LexOne(cfg, rest, s, Blank(rest[0]), s');
    assert rest[..n][1..] == rest[1..n];
  }

  lemma {:induction false} LexBlockBody(cfg: Config, rest: string, s: State)
    requires s.mode == Block
    ensures var n := BodyLength(cfg, rest);
            Lex(cfg, rest, s) == Blanks(rest[..n]) + Lex(cfg, rest[n..], s.(mode := Code))
    decreases |rest|
  {
    if rest != [] {
      hide *;
      BodyLengthStep(cfg, rest);
      var n := BodyLength(cfg, rest);
      if BlockEnds(cfg, rest) {
        BlockEndNonEmpty(cfg, rest);
        var next := if n > 1 then s.(mode := BlockClose(n - 1)) else s.(mode := Code);
        BlockStepEnds(cfg, rest, s);
        if n > 1 {
          LexBlockClose(cfg, rest[1..], next, n - 1);
          Slices(rest, 1, n - 1);
        } else {
          NoBlanks(rest);
        }
        LexBlankStep(cfg, rest, s, next, n);
      } else {
        BlockStepStays(cfg, rest, s);
        LexBlockBody(cfg, rest[1..], s);
        Slices(rest, 1, n - 1);
        LexBlankStep(cfg, rest, s, s, n);
      }
    }
  }

  lemma BlockStepEnds(cfg: Config, rest: string, s: State)
    requires s.mode == Block && BlockEnds(cfg, rest)
    ensures 0 < |cfg.blockEnd| <= |rest|
    ensures var m := |cfg.blockEnd|;
            Step(cfg, rest, s) == (Blank(rest[0]), s.(mode := if m > 1 then BlockClose(m - 1) else Code))
  {
  }

  lemma BlockStepStays(cfg: Config, rest: string, s: State)
    requires rest != [] && s.mode == Block && !BlockEnds(cfg, rest)
    ensures Step(cfg, rest, s) == (Blank(rest[0]), s)
  {
  }

  lemma BlockEndNonEmpty(cfg: Config, rest: string)
    requires BlockEnds(cfg, rest)
    ensures |cfg.blockEnd| > 0
  {
  }

  lemma NoBlanks(rest: string)
    requires rest != []
    ensures Blanks(rest[1..1]) == []
  {
  }

  lemma BlanksJoin(p: string, q: string)
    ensures Blanks(p + q) == Blanks(p) + Blanks(q)
  {
    if p == [] {
      assert p + q == q;
    } else {
      assert (p + q)[1..] == p[1..] + q;
      BlanksJoin(p[1..], q);
    }
  }

  /** A block comment becomes blanks up to its end, and code goes on after it. */
  lemma LexBlock(cfg: Config, rest: string, s: State)
    requires s.mode == Code && BlockStarts(cfg, rest)
    ensures var n := BlockLength(cfg, rest);
            Lex(cfg, rest, s) == Blanks(rest[..n]) + Lex(cfg, rest[n..], s)
  {
    hide *;
    BlockLengthIs(cfg, rest);
    var open := |cfg.blockStart|;
    var n := BlockLength(cfg, rest);
    LexBlockStart(cfg, rest, s);
    LexBlockBody(cfg, rest[open..], s.(mode := Block));
    Slices(rest, open, n - open);
    BlanksJoin(rest[..open], rest[open..n]);
    Rejoin(Blanks(rest[..open]), Blanks(rest[open..n]), Lex(cfg, rest[n..], s));
  }

  lemma BlockLengthIs(cfg: Config, rest: string)
    requires BlockStarts(cfg, rest)
    ensures |cfg.blockStart| <= BlockLength(cfg, rest) <= |rest|
    ensures BlockLength(cfg, rest) == |cfg.blockStart| + BodyLength(cfg, rest[|cfg.blockStart|..])
  {
    hide BodyLength;
  }

  lemma Rejoin(a: string, b: string, c: string)
    ensures a + (b + c) == (a + b) + c
  {
  }

  lemma LexBlockStart(cfg: Config, rest: string, s: State)
    requires s.mode == Code && BlockStarts(cfg, rest)
    ensures var open := |cfg.blockStart|;
            Lex(cfg, rest, s) == Blanks(rest[..open]) + Lex(cfg, rest[open..], s.(mode := Block))
  {
    var open := |cfg.blockStart|;
    var next := s.(mode := if open == 1 then Block else BlockOpen(open - 1));
    LexOne(cfg, rest, s, Blank(rest[0]), next);
    Slices(rest, 1, open - 1);
    BlanksOne(rest, open);
    if open > 1 {
      hide Lex, Blanks, Step;
      LexBlockOpen(cfg, rest[1..], next, open - 1);
      Rejoin([Blank(rest[0])], Blanks(rest[1..open]), Lex(cfg, rest[open..], s.(mode := Block)));
    }
  }

  lemma BlanksOne(rest: string, n: nat)
    requires 0 < n <= |rest|
    ensures Blanks(rest[..n]) == [Blank(rest[0])] + Blanks(rest[1..n])
  {
    assert rest[..n][1..] == rest[1..n];
  }

  /** At the end of the line a line comment is over. */
  lemma LexLineEnd(cfg: Config, rest: string, s: State)
    requires s.mode == Line && (rest == [] || rest[0] == '\n')
    ensures Lex(cfg, rest, s) == Lex(cfg, rest, s.(mode := Code))
  {
    hide AnyMarker, BlockStarts;
  }

  /** `${` in a template: the interpolation by itself, then the template goes on. */
  lemma LexInterpolation(cfg: Config, rest: string, depth: nat)
    requires Interpolates(rest)
    ensures var s := State(Text('`', false), depth, []);
            var inner := Lex(cfg, rest[2..], Start(1));
            Lex(cfg, rest, s) == "${" + inner + Lex(cfg, rest[2 + |inner|..], s)
  {
    var s := State(Text('`', false), depth, []);
    var inner := Lex(cfg, rest[2..], Start(1));
    LexOne(cfg, rest, s, '$', State(Opening, depth, []));
    assert [] + [depth] == [depth];
    LexOne(cfg, rest[1..], State(Opening, depth, []), '{', State(Code, 1, [depth]));
    hide Lex, Step;
    assert rest[1..][1..] == rest[2..];
    assert Under([depth], Start(1)) == State(Code, 1, [depth]);
    assert Pop(State(Code, 1, [depth])) == s;
    LexNested(cfg, rest[2..], Start(1), [depth]);
    assert rest[2..][|inner|..] == rest[2 + |inner|..];
  }

  // ----- progress behind the pieces ---------------------------------------------------------------------

  lemma {:induction false} AdvancesBlockOpen(cfg: Config, rest: string, s: State, left: nat)
    requires 0 < left <= |rest| && s.mode == BlockOpen(left) && Advances(cfg, rest, s)
    ensures Advances(cfg, rest[left..], s.(mode := Block))
    decreases left
  {
    AdvancesNext(cfg, rest, s);
    if left > 1 {
      AdvancesBlockOpen(cfg, rest[1..], s.(mode := BlockOpen(left - 1)), left - 1);
      assert rest[1..][left - 1..] == rest[left..];
    }
  }

  lemma {:induction false} AdvancesBlockClose(cfg: Config, rest: string, s: State, left: nat)
    requires 0 < left <= |rest| && s.mode == BlockClose(left) && Advances(cfg, rest, s)
    ensures Advances(cfg, rest[left..], s.(mode := Code))
    decreases left
  {
    AdvancesNext(cfg, rest, s);
    if left > 1 {
      AdvancesBlockClose(cfg, rest[1..], s.(mode := BlockClose(left - 1)), left - 1);
      assert rest[1..][left - 1..] == rest[left..];
    }
  }

  lemma {:induction false} AdvancesBlockBody(cfg: Config, rest: string, s: State)
    requires s.mode == Block && Advances(cfg, rest, s)
    ensures Advances(cfg, rest[BodyLength(cfg, rest)..], s.(mode := Code))
    decreases |rest|
  {
    hide *;
    if rest == [] {
      NothingLeft(cfg, rest, s.(mode := Code));
    } else {
      InBlock(s);
      BodyLengthStep(cfg, rest);
      AdvancesNext(cfg, rest, s);
      var n := BodyLength(cfg, rest);
      if BlockEnds(cfg, rest) {
        BlockEndNonEmpty(cfg, rest);
        BlockStepEnds(cfg, rest, s);
        if n > 1 {
          AdvancesBlockClose(cfg, rest[1..], s.(mode := BlockClose(n - 1)), n - 1);
          Slices(rest, 1, n - 1);
        }
      } else {
        BlockStepStays(cfg, rest, s);
        AdvancesBlockBody(cfg, rest[1..], s);
        Slices(rest, 1, n - 1);
      }
    }
  }

  lemma InBlock(s: State)
    requires s.mode == Block
    ensures s.mode != Done
  {
  }

  lemma NothingLeft(cfg: Config, rest: string, s: State)
    requires rest == []
    ensures BodyLength(cfg, rest) == 0 && Advances(cfg, rest, s)
  {
  }

  lemma AdvancesBlock(cfg: Config, rest: string, s: State)
    requires s.mode == Code && BlockStarts(cfg, rest) && Advances(cfg, rest, s)
    ensures Advances(cfg, rest[BlockLength(cfg, rest)..], s)
  {
    BlockLengthIs(cfg, rest);
    AdvancesBlockStart(cfg, rest, s);
    hide BodyLength, BlockLength, Advances;
    var open := |cfg.blockStart|;
    AdvancesBlockBody(cfg, rest[open..], s.(mode := Block));
    Slices(rest, open, BlockLength(cfg, rest) - open);
  }

  lemma AdvancesBlockStart(cfg: Config, rest: string, s: State)
    requires s.mode == Code && BlockStarts(cfg, rest) && Advances(cfg, rest, s)
    ensures Advances(cfg, rest[|cfg.blockStart|..], s.(mode := Block))
  {
    AdvancesNext(cfg, rest, s);
    var open := |cfg.blockStart|;
    if open > 1 {
      hide Advances;
      AdvancesBlockOpen(cfg, rest[1..], s.(mode := BlockOpen(open - 1)), open - 1);
      Slices(rest, 1, open - 1);
    }
  }

  lemma AdvancesLineEnd(cfg: Config, rest: string, s: State)
    requires s.mode == Line && (rest == [] || rest[0] == '\n')
    ensures Advances(cfg, rest, s) == Advances(cfg, rest, s.(mode := Code))
  {
    hide AnyMarker, BlockStarts;
  }

  lemma AdvancesInterpolation(cfg: Config, rest: string, depth: nat)
    requires Interpolates(rest) && Advances(cfg, rest, State(Text('`', false), depth, []))
    ensures Advances(cfg, rest[2..], Start(1))
    ensures Advances(cfg, rest[2 + |Lex(cfg, rest[2..], Start(1))|..], State(Text('`', false), depth, []))
  {
    var s := State(Text('`', false), depth, []);
    assert [] + [depth] == [depth];
    AdvancesNext(cfg, rest, s);
    AdvancesNext(cfg, rest[1..], State(Opening, depth, []));
    hide Lex, Step, Advances;
    assert rest[1..][1..] == rest[2..];
    assert Under([depth], Start(1)) == State(Code, 1, [depth]);
    assert Pop(State(Code, 1, [depth])) == s;
    AdvancesNested(cfg, rest[2..], Start(1), [depth]);
    Slices(rest, 2, |Lex(cfg, rest[2..], Start(1))|);
  }

  // ----- the two scanners -------------------------------------------------------------------------------

  /** The lexer state that `in_string`, `escape` and `depth` stand for. */
  function Scan(inString: Option<char>, escape: bool, depth: nat): State {
    State(if inString.None? then Code else Text(inString.value, escape), depth, [])
  }

  /** `source.find("\n", i)`, or the end of the text: where the line comment at `i` ends. */
  function LineEnd(source: string, i: nat): (end: nat)
    requires i <= |source|
    ensures i <= end <= |source|
    decreases |source| - i
  {
    if i < |source| && source[i] != '\n' then LineEnd(source, i + 1) else i
  }

  /** What is left to write from position `i` on, and nothing that keeps the scanner from moving. */
  ghost predicate Remains(cfg: Config, source: string, i: nat, s: State, rest: string) {
    i <= |source| && Lex(cfg, source[i..], s) == rest && Advances(cfg, source[i..], s)
  }

  /** One character written, one read. */
  lemma ReadOne(cfg: Config, source: string, i: nat, s: State, s': State)
    requires i < |source| && s.mode != Done && Step(cfg, source[i..], s) == (source[i], s')
    requires Advances(cfg, source[i..], s)
    ensures Remains(cfg, source, i, s, [source[i]] + Lex(cfg, source[i + 1..], s')) && Advances(cfg, source[i + 1..], s')
  {
    hide Step, Lex, Advances;
    LexOne(cfg, source[i..], s, source[i], s');
    AdvancesNext(cfg, source[i..], s);
    assert source[i..][1..] == source[i + 1..];
  }

  /** A marker at a line break in code is what keeps the scanner from moving. */
  lemma MarkerAdvances(cfg: Config, source: string, i: nat, depth: nat)
    requires i < |source| && Advances(cfg, source[i..], Start(depth))
    requires !BlockStarts(cfg, source[i..]) && AnyMarker(source[i..], cfg.lineMarkers)
    ensures source[i] != '\n'
  {
    hide BlockStarts, AnyMarker;
    AdvancesNext(cfg, source[i..], Start(depth));
    assert source[i..][0] == source[i];
  }

  /** Where a line comment starts, its branch ends where it began exactly if the marker stands at a line break in code. */
  lemma LineBranchStaysIff(cfg: Config, source: string, i: nat, depth: nat)
    requires i < |source| && !BlockStarts(cfg, source[i..]) && StartsWithAny(source[i..], cfg.lineMarkers).Some?
    ensures LineEnd(source, i) == i <==> Stands(cfg, source[i..], Start(depth))
  {
    hide AnyMarker, BlockStarts;
    assert source[i..][0] == source[i];
  }

  /**
   The exception: a marker that begins with a line break, and a text in which the line-comment branch is taken at a
   position it does not leave.  The scanners would stay there for ever.
   */
  lemma MarkerAtBreakStandsStill()
    ensures var cfg, text := Settings(OneMarker("\n#"), None, {}), "\n#";
            && !Advances(cfg, text, Start(0))
            && !BlockStarts(cfg, text) && StartsWithAny(text, cfg.lineMarkers) == Some("\n#")
            && LineEnd(text, 0) == 0
  {
    var cfg, text := Settings(OneMarker("\n#"), None, {}), "\n#";
    assert cfg.lineMarkers[0] <= text;
    assert Stands(cfg, text, Start(0));
  }

  /** Blank a block comment; the loop over its characters. */
  method BlankChunk(source: string, i: nat, chunkEnd: nat) returns (blanks: string)
    requires i <= chunkEnd <= |source|
    ensures blanks == Blanks(source[i..chunkEnd])
  {
    blanks := "";
    for k := i to chunkEnd
      invariant blanks + Blanks(source[k..chunkEnd]) == Blanks(source[i..chunkEnd])
    {
      assert source[k..chunkEnd][1..] == source[k + 1..chunkEnd];
      blanks := blanks + [if source[k] == '\n' then '\n' else ' '];
    }
  }

  /** Blank the rest of the line; the loop of the line-comment branch. */
  method BlankLine(cfg: Config, source: string, start: nat, depth: nat) returns (blanks: string, i: nat)
    requires start < |source| && source[start] != '\n'
    requires !BlockStarts(cfg, source[start..]) && AnyMarker(source[start..], cfg.lineMarkers)
    requires Advances(cfg, source[start..], Start(depth))
    ensures i == LineEnd(source, start) > start && |blanks| == i - start
    ensures Remains(cfg, source, start, Start(depth), blanks + Lex(cfg, source[i..], Start(depth)))
    ensures Advances(cfg, source[i..], Start(depth))
  {
    hide AnyMarker, BlockStarts;
    var line := State(Line, depth, []);
    LexOne(cfg, source[start..], Start(depth), ' ', line);
    AdvancesNext(cfg, source[start..], Start(depth));
    assert source[start..][1..] == source[start + 1..];
    blanks, i := " ", start + 1;
    while i < |source| && source[i] != '\n'
      invariant start < i <= |source| && |blanks| == i - start && LineEnd(source, i) == LineEnd(source, start)
      invariant Lex(cfg, source[start..], Start(depth)) == blanks + Lex(cfg, source[i..], line)
      invariant Advances(cfg, source[i..], line)
    {
      LexOne(cfg, source[i..], line, ' ', line);
      AdvancesNext(cfg, source[i..], line);
      assert source[i..][1..] == source[i + 1..];
      blanks, i := blanks + " ", i + 1;
    }
    LexLineEnd(cfg, source[i..], line);
    AdvancesLineEnd(cfg, source[i..], line);
  }

  lemma ReadInterpolation(cfg: Config, source: string, i: nat, depth: nat)
    requires i + 1 < |source| && Interpolates(source[i..])
    requires Advances(cfg, source[i..], Scan(Some('`'), false, depth))
    ensures Advances(cfg, source[i + 2..], Start(1))
    ensures var inner := Lex(cfg, source[i + 2..], Start(1));
            var end, s := i + 2 + |inner|, Scan(Some('`'), false, depth);
            Remains(cfg, source, i, s, "${" + inner + Lex(cfg, source[end..], s)) && Advances(cfg, source[end..], s)
  {
    hide Lex, Interpolates, Advances;
    LexInterpolation(cfg, source[i..], depth);
    AdvancesInterpolation(cfg, source[i..], depth);
    Slices(source, i, 2);
    Slices(source, i, 2 + |Lex(cfg, source[i + 2..], Start(1))|);
  }

  lemma ReadBlock(cfg: Config, source: string, i: nat, depth: nat)
    requires i < |source| && BlockStarts(cfg, source[i..]) && Advances(cfg, source[i..], Start(depth))
    ensures var end := i + BlockLength(cfg, source[i..]);
            && i < end <= |source|
            && Remains(cfg, source, i, Start(depth), Blanks(source[i..end]) + Lex(cfg, source[end..], Start(depth)))
            && Advances(cfg, source[end..], Start(depth))
  {
    hide Lex, Blanks, BlockLength, BlockStarts, Advances;
    LexBlock(cfg, source[i..], Start(depth));
    AdvancesBlock(cfg, source[i..], Start(depth));
    Slices(source, i, BlockLength(cfg, source[i..]));
  }

  /** A turn of the loops in a string literal: one character, or an interpolation with all that is in it. */
  method TextTurn(cfg: Config, source: string, i: nat, delim: char, escape: bool, depth: nat)
    returns (piece: string, j: nat, inString: Option<char>, escaped: bool)
    requires i < |source| && Advances(cfg, source[i..], Scan(Some(delim), escape, depth))
    ensures i < j <= |source| && |piece| == j - i && (inString.None? ==> !escaped)
    ensures var s, s' := Scan(Some(delim), escape, depth), Scan(inString, escaped, depth);
            Remains(cfg, source, i, s, piece + Lex(cfg, source[j..], s')) && Advances(cfg, source[j..], s')
    decreases |source|, 0
  {
    hide Lex, Step, Advances, Interpolates;
    var ch := source[i];
    TextCharacter(cfg, source, i, delim, escape, depth);
    if !escape && ch != '\\' && delim == '`' && ch == '$' && i + 1 < |source| && source[i + 1] == '{' {
      ReadInterpolation(cfg, source, i, depth);
      var inner, consumed := StripInterpolation(source[i + 2..], cfg);
      return [ch] + "{" + inner, i + 2 + consumed, Some(delim), false;
    }
    inString := if !escape && ch != '\\' && ch == delim then None else Some(delim);
    escaped := !escape && ch == '\\';
    ReadOne(cfg, source, i, Scan(Some(delim), escape, depth), Scan(inString, escaped, depth));
    piece, j := [ch], i + 1;
  }

  /** A turn of the loops at a comment; without one, nothing is read. */
  method CommentTurn(cfg: Config, source: string, i: nat, depth: nat) returns (blanks: string, j: nat)
    requires i < |source| && Advances(cfg, source[i..], Start(depth))
    ensures i <= j <= |source| && |blanks| == j - i
    ensures j == i <==> !BlockStarts(cfg, source[i..]) && !AnyMarker(source[i..], cfg.lineMarkers)
    ensures Remains(cfg, source, i, Start(depth), blanks + Lex(cfg, source[j..], Start(depth)))
    ensures Advances(cfg, source[j..], Start(depth))
  {
    hide Lex, AnyMarker, BlockStarts, BlockLength, Advances;
    if BlockStarts(cfg, source[i..]) {
      ReadBlock(cfg, source, i, depth);
      j := i + BlockLength(cfg, source[i..]);
      blanks := BlankChunk(source, i, j);
    } else if StartsWithAny(source[i..], cfg.lineMarkers).Some? {
      MarkerAdvances(cfg, source, i, depth);
      blanks, j := BlankLine(cfg, source, i, depth);
    } else {
      blanks, j := "", i;
    }
  }

  /** One character of a string literal: an interpolation opens, or the scan stays in the text or leaves it. */
  lemma TextCharacter(cfg: Config, source: string, i: nat, delim: char, escape: bool, depth: nat)
    requires i < |source|
    ensures var ch := source[i];
            var opens := i + 1 < |source| && ch == '$' && source[i + 1] == '{';
            && (opens <==> Interpolates(source[i..]))
            && (escape || ch == '\\' || delim != '`' || !opens ==>
                Step(cfg, source[i..], Scan(Some(delim), escape, depth)) == (ch,
                  Scan(if !escape && ch != '\\' && ch == delim then None else Some(delim), !escape && ch == '\\', depth)))
  {
  }

  /** One character of code at which no comment starts. */
  lemma CodeCharacter(cfg: Config, source: string, i: nat, depth: nat)
    requires i < |source| && !BlockStarts(cfg, source[i..]) && !AnyMarker(source[i..], cfg.lineMarkers)
    ensures var ch := source[i];
            var closes := ch !in cfg.delims && depth > 0 && ch == '}';
            Step(cfg, source[i..], Scan(None, false, depth)) == (ch,
              if ch in cfg.delims then Scan(Some(ch), false, depth)
              else if closes && depth == 1 then State(Done, 0, [])
              else if closes then Scan(None, false, depth - 1)
              else if depth > 0 && ch == '{' then Scan(None, false, depth + 1)
              else Scan(None, false, depth))
  {
    hide BlockStarts, AnyMarker;
  }

  lemma ReadAll(cfg: Config, source: string, i: nat, out: string, s: State, whole: string)
    requires i == |source| || s.mode == Done
    requires i <= |source| && out + Lex(cfg, source[i..], s) == whole
    ensures out == whole
  {
  }

  /** The pieces written so far and the rest make up the whole, whichever piece comes next. */
  lemma Written(cfg: Config, source: string, i: nat, s: State, out: string, piece: string, tail: string, whole: string)
    requires Remains(cfg, source, i, s, piece + tail) && out + Lex(cfg, source[i..], s) == whole
    ensures out + piece + tail == whole
  {
  }

  /** `strip_comments`. */
  method StripComments(source: string, line: LineComment, block: Option<(string, string)>, delims: set<char>)
    returns (text: string)
    requires Advances(Settings(line, block, delims), source, Start(0))
    ensures text == Lex(Settings(line, block, delims), source, Start(0)) == CodeText(source, line, block, delims, 0)
    ensures |text| == |source|
  {
    hide *;
    var cfg := Settings(line, block, delims);
    SettingsOf(line, block, delims);
    ghost var whole := Lex(cfg, source, Start(0));
    var n := |source|;
    var out, i := "", 0;
    var inString: Option<char>, escape := None, false;
    AtStart(cfg, source, 0);
    while i < n
      invariant 0 <= i <= n && (inString.None? ==> !escape)
      invariant out + Lex(cfg, source[i..], Scan(inString, escape, 0)) == whole
      invariant Advances(cfg, source[i..], Scan(inString, escape, 0))
      decreases n - i
    {
      var ch := source[i];
      ghost var s := Scan(inString, escape, 0);
      if inString.Some? {
        var piece, j;
        piece, j, inString, escape := TextTurn(cfg, source, i, inString.value, escape, 0);
        Written(cfg, source, i, s, out, piece, Lex(cfg, source[j..], Scan(inString, escape, 0)), whole);
        out, i := out + piece, j;
        continue;
      }
      InCodeScan(0);
      var blanks, j := CommentTurn(cfg, source, i, 0);
      if j > i {
        Written(cfg, source, i, s, out, blanks, Lex(cfg, source[j..], Start(0)), whole);
        out, i := out + blanks, j;
        continue;
      }
      CodeCharacter(cfg, source, i, 0);
      var next := if ch in delims then Some(ch) else None;
      ReadOne(cfg, source, i, s, Scan(next, false, 0));
      Written(cfg, source, i, s, out, [ch], Lex(cfg, source[i + 1..], Scan(next, false, 0)), whole);
      inString := next;
      out, i := out + [ch], i + 1;
    }
    ReadAll(cfg, source, i, out, Scan(inString, escape, 0), whole);
    TopLevelStart();
    LexKeepsLength(cfg, source, Start(0));
    text := out;
  }

  lemma AtStart(cfg: Config, source: string, depth: nat)
    ensures source[0..] == source && Scan(None, false, depth) == Start(depth)
    ensures "" + Lex(cfg, source[0..], Scan(None, false, depth)) == Lex(cfg, source, Start(depth))
  {
  }

  lemma InCodeScan(depth: nat)
    ensures Scan(None, false, depth) == Start(depth) && Scan(None, false, depth).mode != Done
  {
  }

  lemma TopLevelStart()
    ensures TopLevel(Start(0))
  {
  }

  lemma SettingsOf(line: LineComment, block: Option<(string, string)>, delims: set<char>)
    ensures Settings(line, block, delims).delims == delims
    ensures forall source, depth ::
      CodeText(source, line, block, delims, depth) == Lex(Settings(line, block, delims), source, Start(depth))
  {
    hide LineMarkers;
  }

  /** `_strip_interpolation`: the text of the region, which is as long as what was consumed. */
  method StripInterpolation(source: string, cfg: Config) returns (text: string, consumed: nat)
    requires Advances(cfg, source, Start(1))
    ensures text == Lex(cfg, source, Start(1))
    ensures consumed == |text| <= |source|
    decreases |source|, 1
  {
    hide *;
    ghost var whole := Lex(cfg, source, Start(1));
    var depth, i, n := 1, 0, |source|;
    var out := "";
    var inString: Option<char>, escape := None, false;
    AtStart(cfg, source, 1);
    while i < n && depth > 0
      invariant 0 <= i <= n && |out| == i && (inString.None? ==> !escape)
      invariant depth > 0 ==> out + Lex(cfg, source[i..], Scan(inString, escape, depth)) == whole
      invariant depth > 0 ==> Advances(cfg, source[i..], Scan(inString, escape, depth))
      invariant depth == 0 ==> out == whole
      decreases n - i
    {
      var ch := source[i];
      ghost var s := Scan(inString, escape, depth);
      if inString.Some? {
        var piece, j;
        piece, j, inString, escape := TextTurn(cfg, source, i, inString.value, escape, depth);
        Written(cfg, source, i, s, out, piece, Lex(cfg, source[j..], Scan(inString, escape, depth)), whole);
        out, i := out + piece, j;
        continue;
      }
      InCodeScan(depth);
      var blanks, j := CommentTurn(cfg, source, i, depth);
      if j > i {
        Written(cfg, source, i, s, out, blanks, Lex(cfg, source[j..], Start(depth)), whole);
        out, i := out + blanks, j;
        continue;
      }
      CodeCharacter(cfg, source, i, depth);
      if ch !in cfg.delims && ch == '}' && depth == 1 {
        ReadOne(cfg, source, i, s, State(Done, 0, []));
        Written(cfg, source, i, s, out, [ch], Lex(cfg, source[i + 1..], State(Done, 0, [])), whole);
        ReadAll(cfg, source, i + 1, out + [ch], State(Done, 0, []), whole);
        depth, out, i := 0, out + [ch], i + 1;
        break;
      }
      var quote := if ch in cfg.delims then Some(ch) else None;
      var inner := if quote.None? && ch == '{' then depth + 1 else if quote.None? && ch == '}' then depth - 1 else depth;
      ReadOne(cfg, source, i, s, Scan(quote, false, inner));
      Written(cfg, source, i, s, out, [ch], Lex(cfg, source[i + 1..], Scan(quote, false, inner)), whole);
      inString, depth := quote, inner;
      out, i := out + [ch], i + 1;
    }
    if depth > 0 { ReadAll(cfg, source, i, out, Scan(inString, escape, depth), whole); }
    LexIsShorter(cfg, source, Start(1));
    text, consumed := out, i;
  }

  lemma LexIsShorter(cfg: Config, source: string, s: State)
    ensures |Lex(cfg, source, s)| <= |source|
  {
  }
}
