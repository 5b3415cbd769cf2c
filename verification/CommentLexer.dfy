/**
 A one-pass pushdown lexer for source text with comments, string literals and `${...}` template interpolation.

 The lexer reads one character at a time, looks ahead only to recognise a marker, and keeps the brace depths of
 the enclosing interpolations on an explicit stack.  It is the reference meaning of the two hand-written scanners
 of `backend/app/parsing/comments.py` and of the brace skipper of `backend/app/parsing/extract.py`.
 */
module CommentLexer {

  datatype Config = Config(lineMarkers: seq<string>, blockStart: string, blockEnd: string, delims: set<char>)

  datatype Mode =
    | Code
    | Text(delim: char, escaped: bool)   // inside a string literal
    | Opening                            // between the `$` and the `{` of an interpolation
    | Line                               // inside a line comment
    | BlockOpen(left: nat)               // inside the opening marker of a block comment
    | Block
    | BlockClose(left: nat)              // inside its closing marker
    | Done                               // the interpolation the lexer was started in has been closed

  /** `depth` counts the open braces of the current interpolation and is 0 outside every interpolation. */
  datatype State = State(mode: Mode, depth: nat, stack: seq<nat>)

  function Start(depth: nat): State {
    State(Code, depth, [])
  }

  function Blank(c: char): char {
    if c == '\n' then '\n' else ' '
  }

  predicate AnyMarker(rest: string, markers: seq<string>) {
    exists k :: 0 <= k < |markers| && markers[k] <= rest
  }

  predicate BlockStarts(cfg: Config, rest: string) {
    cfg.blockStart != "" && cfg.blockStart <= rest
  }

  predicate BlockEnds(cfg: Config, rest: string) {
    cfg.blockEnd != "" && cfg.blockEnd <= rest
  }

  predicate Interpolates(rest: string) {
    |rest| >= 2 && rest[0] == '$' && rest[1] == '{'
  }

  /** Leave the innermost interpolation: back into the template literal around it, if there is one. */
  function Pop(s: State): State {
    if s.stack == [] then State(Done, 0, [])
    else State(Text('`', false), s.stack[|s.stack| - 1], s.stack[..|s.stack| - 1])
  }

  function CodeStep(cfg: Config, rest: string, s: State): (char, State)
    requires rest != []
  {
    var c := rest[0];
    if BlockStarts(cfg, rest) then
      (Blank(c), s.(mode := if |cfg.blockStart| == 1 then Block else BlockOpen(|cfg.blockStart| - 1)))
    else if AnyMarker(rest, cfg.lineMarkers) then
      (Blank(c), s.(mode := Line))
    else if c in cfg.delims then
      (c, s.(mode := Text(c, false)))
    else if s.depth > 0 && c == '{' then
      (c, s.(mode := Code, depth := s.depth + 1))
    else if s.depth > 0 && c == '}' then
      (c, if s.depth == 1 then Pop(s) else s.(mode := Code, depth := s.depth - 1))
    else
      (c, s.(mode := Code))
  }

  function TextStep(rest: string, s: State): (char, State)
    requires rest != [] && s.mode.Text?
  {
    var c, d := rest[0], s.mode.delim;
    if s.mode.escaped then (c, s.(mode := Text(d, false)))
    else if c == '\\' then (c, s.(mode := Text(d, true)))
    else if d == '`' && Interpolates(rest) then (c, s.(mode := Opening))
    else if c == d then (c, s.(mode := Code))
    else (c, s)
  }

  /** One character: what is written for it, and the state after it. */
  function Step(cfg: Config, rest: string, s: State): (char, State)
    requires rest != [] && s.mode != Done
  {
    var c := rest[0];
    match s.mode
    case Code => CodeStep(cfg, rest, s)
    case Text(_, _) => TextStep(rest, s)
    case Opening => (c, State(Code, 1, s.stack + [s.depth]))
    case Line => if c == '\n' then CodeStep(cfg, rest, s) else (' ', s)
    case BlockOpen(k) => (Blank(c), s.(mode := if k <= 1 then Block else BlockOpen(k - 1)))
    case Block =>
      if BlockEnds(cfg, rest) then
        (Blank(c), s.(mode := if |cfg.blockEnd| == 1 then Code else BlockClose(|cfg.blockEnd| - 1)))
      else
        (Blank(c), s)
    case BlockClose(k) => (Blank(c), s.(mode := if k <= 1 then Code else BlockClose(k - 1)))
  }

  /** What the lexer writes for `rest` from state `s`; it stops early once the state is `Done`. */
  function Lex(cfg: Config, rest: string, s: State): (out: string)
    ensures |out| <= |rest|
    decreases |rest|
  {
    if rest == [] || s.mode == Done then []
    else
      var (c, s') := Step(cfg, rest, s);
      [c] + Lex(cfg, rest[1..], s')
  }

  /** The state in which the lexer reads the character at position `k`. */
  function StateAt(cfg: Config, rest: string, s: State, k: nat): State
    requires k <= |rest|
    decreases k
  {
    if k == 0 || s.mode == Done then s else StateAt(cfg, rest[1..], Step(cfg, rest, s).1, k - 1)
  }

  // ----- shape of the output ------------------------------------------------------------------------

  /** A state reachable from the top level: under all interpolations lies the text outside them. */
  predicate TopLevel(s: State) {
    s.mode != Done && if s.stack == [] then s.depth == 0 else s.stack[0] == 0
  }

  lemma StepTopLevel(cfg: Config, rest: string, s: State)
    requires rest != [] && TopLevel(s)
    ensures TopLevel(Step(cfg, rest, s).1)
  {
    hide AnyMarker, BlockStarts, BlockEnds, Interpolates;
  }

  lemma StepChar(cfg: Config, rest: string, s: State)
    requires rest != [] && s.mode != Done
    ensures Step(cfg, rest, s).0 == rest[0] || Step(cfg, rest, s).0 == Blank(rest[0])
  {
    hide AnyMarker, BlockStarts, BlockEnds, Interpolates;
  }

  /** Every position keeps its character or is blanked, so line breaks stay where they are. */
  lemma {:induction false} LexKeepsPositions(cfg: Config, rest: string, s: State, k: nat)
    requires k < |Lex(cfg, rest, s)|
    ensures Lex(cfg, rest, s)[k] == rest[k] || Lex(cfg, rest, s)[k] == Blank(rest[k])
    ensures Lex(cfg, rest, s)[k] == '\n' <==> rest[k] == '\n'
    decreases |rest|
  {
    hide Step;
    StepChar(cfg, rest, s);
    if k > 0 { LexKeepsPositions(cfg, rest[1..], Step(cfg, rest, s).1, k - 1); }
  }

  /** Outside every interpolation the lexer cannot stop early: the length is unchanged. */
  lemma {:induction false} LexKeepsLength(cfg: Config, rest: string, s: State)
    requires TopLevel(s)
    ensures |Lex(cfg, rest, s)| == |rest|
    decreases |rest|
  {
    hide Step, TopLevel;
    if rest != [] {
      StepTopLevel(cfg, rest, s);
      assert s.mode != Done by { TopLevelNotDone(s); }
      LexKeepsLength(cfg, rest[1..], Step(cfg, rest, s).1);
    }
  }

  lemma TopLevelNotDone(s: State)
    requires TopLevel(s)
    ensures s.mode != Done
  {
  }

  /** The character at hand belongs to a comment. */
  predicate Commented(cfg: Config, rest: string, s: State)
    requires rest != []
  {
    match s.mode
    case Code => BlockStarts(cfg, rest) || AnyMarker(rest, cfg.lineMarkers)
    case Line => rest[0] != '\n' || BlockStarts(cfg, rest) || AnyMarker(rest, cfg.lineMarkers)
    case BlockOpen(_) => true
    case Block => true
    case BlockClose(_) => true
    case _ => false
  }

  /** Exactly the positions inside comments are blanked. */
  lemma {:induction false} CommentsAreBlanked(cfg: Config, rest: string, s: State, k: nat)
    requires k < |Lex(cfg, rest, s)|
    ensures Lex(cfg, rest, s)[k] ==
            if Commented(cfg, rest[k..], StateAt(cfg, rest, s, k)) then Blank(rest[k]) else rest[k]
    decreases k
  {
    if k == 0 {
      hide AnyMarker, BlockStarts, BlockEnds, Interpolates;
      assert rest[0..] == rest;
    } else {
      hide Step, Commented;
      CommentsAreBlanked(cfg, rest[1..], Step(cfg, rest, s).1, k - 1);
      assert rest[1..][k - 1..] == rest[k..];
    }
  }

  // ----- nesting --------------------------------------------------------------------------------------

  /** The same state with more interpolations around it. */
  function Under(base: seq<nat>, s: State): State {
    s.(stack := base + s.stack)
  }

  lemma StepUnder(cfg: Config, rest: string, s: State, base: seq<nat>)
    requires rest != [] && s.mode != Done
    ensures var (c, s') := Step(cfg, rest, s);
            Step(cfg, rest, Under(base, s)) == (c, if s'.mode == Done then Pop(State(Code, 1, base)) else Under(base, s'))
            || (base == [] && s'.mode == Done)
  {
    hide AnyMarker, BlockStarts, BlockEnds, Interpolates;
    if s.stack != [] {
      var n := |s.stack| - 1;
      assert (base + s.stack)[..|base + s.stack| - 1] == base + s.stack[..n];
    } else {
      assert base + s.stack == base;
    }
    assert base + s.stack + [s.depth] == base + (s.stack + [s.depth]);
  }

  /** Lexing an interpolation inside a template is lexing it by itself, then going on with the template. */
  lemma {:induction false} LexNested(cfg: Config, rest: string, s: State, base: seq<nat>)
    requires base != [] && s.mode != Done
    ensures Lex(cfg, rest, Under(base, s)) ==
            Lex(cfg, rest, s) + Lex(cfg, rest[|Lex(cfg, rest, s)|..], Pop(State(Code, 1, base)))
    decreases |rest|
  {
    hide Step, Pop;
    if rest != [] {
      StepUnder(cfg, rest, s, base);
      var (c, s') := Step(cfg, rest, s);
      var inner := Lex(cfg, rest, s);
      assert rest[|inner|..] == rest[1..][|inner| - 1..];
      if s'.mode != Done {
        LexNested(cfg, rest[1..], s', base);
      } else {
        assert Lex(cfg, rest[1..], s') == [];
      }
    }
  }

  // ----- progress -------------------------------------------------------------------------------------

  /** A line marker stands at a line break in code: the comment it starts ends before it begins. */
  predicate Stands(cfg: Config, rest: string, s: State) {
    rest != [] && rest[0] == '\n' && s.mode in {Code, Line} && !BlockStarts(cfg, rest) && AnyMarker(rest, cfg.lineMarkers)
  }

  /** No line marker stands at a line break in code. */
  predicate Advances(cfg: Config, rest: string, s: State)
    decreases |rest|
  {
    rest == [] || s.mode == Done || (!Stands(cfg, rest, s) && Advances(cfg, rest[1..], Step(cfg, rest, s).1))
  }

  /** Position by position. */
  lemma {:induction false} AdvancesAt(cfg: Config, rest: string, s: State)
    ensures Advances(cfg, rest, s) <==>
            forall k :: 0 <= k < |rest| ==> !Stands(cfg, rest[k..], StateAt(cfg, rest, s, k))
    decreases |rest|
  {
    hide Stands, Step;
    if rest != [] {
      assert rest[0..] == rest;
      if s.mode == Done {
        DoneStands(cfg, rest, s);
      } else {
        var next := Step(cfg, rest, s).1;
        AdvancesAt(cfg, rest[1..], next);
        forall k | 0 < k < |rest| ensures rest[k..] == rest[1..][k - 1..] { }
        forall k | 0 < k < |rest| ensures StateAt(cfg, rest, s, k) == StateAt(cfg, rest[1..], next, k - 1) { }
        if forall k :: 0 <= k < |rest| ==> !Stands(cfg, rest[k..], StateAt(cfg, rest, s, k)) {
          assert !Stands(cfg, rest[0..], StateAt(cfg, rest, s, 0));
          forall k | 0 <= k < |rest[1..]| ensures !Stands(cfg, rest[1..][k..], StateAt(cfg, rest[1..], next, k)) {
            assert !Stands(cfg, rest[k + 1..], StateAt(cfg, rest, s, k + 1));
          }
        }
      }
    }
  }

  predicate NoneBeginsWithBreak(markers: seq<string>) {
    forall k :: 0 <= k < |markers| && markers[k] != "" ==> markers[k][0] != '\n'
  }

  lemma {:induction false} AdvancesAlways(cfg: Config, rest: string, s: State)
    requires NoneBeginsWithBreak(cfg.lineMarkers) && "" !in cfg.lineMarkers
    ensures Advances(cfg, rest, s)
    decreases |rest|
  {
    hide Step;
    if rest != [] && s.mode != Done {
      NeverStands(cfg, rest, s);
      AdvancesAlways(cfg, rest[1..], Step(cfg, rest, s).1);
    }
  }

  lemma NeverStands(cfg: Config, rest: string, s: State)
    requires NoneBeginsWithBreak(cfg.lineMarkers) && "" !in cfg.lineMarkers
    ensures !Stands(cfg, rest, s)
  {
    if rest != [] && rest[0] == '\n' {
      forall k | 0 <= k < |cfg.lineMarkers| ensures !(cfg.lineMarkers[k] <= rest) {
        assert cfg.lineMarkers[k] in cfg.lineMarkers;
      }
    }
  }

  /** A marker that begins with a line break is itself a text in which it stands at a line break in code. */
  lemma MarkerStands(cfg: Config, k: nat)
    requires k < |cfg.lineMarkers| && cfg.lineMarkers[k] != "" && cfg.lineMarkers[k][0] == '\n'
    requires cfg.blockStart != "" ==> cfg.blockStart[0] != '\n'
    ensures !Advances(cfg, cfg.lineMarkers[k], Start(0))
  {
    var m := cfg.lineMarkers[k];
    assert AnyMarker(m, cfg.lineMarkers) by { assert cfg.lineMarkers[k] <= m; }
    assert Stands(cfg, m, Start(0));
  }

  /** The scanners move on in every text exactly if no line marker begins with a line break. */
  lemma AdvancesIff(cfg: Config)
    requires "" !in cfg.lineMarkers && (cfg.blockStart != "" ==> cfg.blockStart[0] != '\n')
    ensures (forall source :: Advances(cfg, source, Start(0))) <==> NoneBeginsWithBreak(cfg.lineMarkers)
  {
    hide Advances;
    if NoneBeginsWithBreak(cfg.lineMarkers) {
      forall source ensures Advances(cfg, source, Start(0)) { AdvancesAlways(cfg, source, Start(0)); }
    } else {
      var k :| 0 <= k < |cfg.lineMarkers| && cfg.lineMarkers[k] != "" && cfg.lineMarkers[k][0] == '\n';
      MarkerStands(cfg, k);
    }
  }

  lemma DoneStands(cfg: Config, rest: string, s: State)
    requires s.mode == Done
    ensures forall k :: 0 <= k <= |rest| ==> StateAt(cfg, rest, s, k) == s
    ensures forall t :: !Stands(cfg, t, s)
  {
  }

  lemma AdvancesNext(cfg: Config, rest: string, s: State)
    requires rest != [] && s.mode != Done && Advances(cfg, rest, s)
    ensures !Stands(cfg, rest, s) && Advances(cfg, rest[1..], Step(cfg, rest, s).1)
  {
  }

  /** What advances inside a template advances by itself, and behind its closing brace. */
  lemma {:induction false} AdvancesNested(cfg: Config, rest: string, s: State, base: seq<nat>)
    requires base != [] && s.mode != Done && Advances(cfg, rest, Under(base, s))
    ensures Advances(cfg, rest, s)
    ensures Advances(cfg, rest[|Lex(cfg, rest, s)|..], Pop(State(Code, 1, base)))
    decreases |rest|
  {
    hide Step, Pop, Stands;
    if rest != [] {
      StepUnder(cfg, rest, s, base);
      StandsUnder(cfg, rest, s, base);
      var (c, s') := Step(cfg, rest, s);
      var inner := Lex(cfg, rest, s);
      assert rest[|inner|..] == rest[1..][|inner| - 1..];
      if s'.mode != Done {
        AdvancesNested(cfg, rest[1..], s', base);
      } else {
        assert Lex(cfg, rest[1..], s') == [];
      }
    } else {
      assert Advances(cfg, [], Pop(State(Code, 1, base)));
    }
  }

  lemma StandsUnder(cfg: Config, rest: string, s: State, base: seq<nat>)
    ensures Stands(cfg, rest, Under(base, s)) <==> Stands(cfg, rest, s)
  {
    hide AnyMarker, BlockStarts;
  }

  // ----- rescanning stripped text -----------------------------------------------------------------------

  predicate NoBlank(p: string) {
    forall k :: 0 <= k < |p| ==> p[k] != ' ' && p[k] != '\n'
  }

  /** No opening marker and no string delimiter contains a blank or a line break. */
  predicate BlankFree(cfg: Config) {
    && NoBlank(cfg.blockStart)
    && (forall k :: 0 <= k < |cfg.lineMarkers| ==> cfg.lineMarkers[k] != "" && NoBlank(cfg.lineMarkers[k]))
    && ' ' !in cfg.delims && '\n' !in cfg.delims
  }

  /** The same strings, no comments. */
  function NoComments(cfg: Config): Config {
    Config([], "", "", cfg.delims)
  }

  /** After stripping, a comment is blank code. */
  function CleanMode(m: Mode): Mode {
    if m.Text? || m.Opening? || m.Done? then m else Code
  }

  /** `w` scans the stripped text where `s` scanned the source, possibly under more interpolations. */
  predicate Follows(s: State, w: State, base: seq<nat>) {
    w.mode == CleanMode(s.mode) && w.depth == s.depth && s.stack == base + w.stack
  }

  /** A blank-free marker in the stripped text was already there in the source. */
  lemma MarkerWasThere(cfg: Config, rest: string, s: State, p: string)
    requires NoBlank(p) && p <= Lex(cfg, rest, s)
    ensures p <= rest
  {
    hide Step;
    forall k | 0 <= k < |p| ensures p[k] == rest[k] {
      LexKeepsPositions(cfg, rest, s, k);
    }
  }

  lemma NoMarkerInCode(cfg: Config, rest: string, s: State)
    requires BlankFree(cfg) && rest != [] && s.mode != Done
    requires !BlockStarts(cfg, rest) && !AnyMarker(rest, cfg.lineMarkers)
    ensures !BlockStarts(cfg, Lex(cfg, rest, s)) && !AnyMarker(Lex(cfg, rest, s), cfg.lineMarkers)
  {
    hide Step, Lex;
    var t := Lex(cfg, rest, s);
    if BlockStarts(cfg, t) { MarkerWasThere(cfg, rest, s, cfg.blockStart); }
    forall k | 0 <= k < |cfg.lineMarkers| ensures !(cfg.lineMarkers[k] <= t) {
      if cfg.lineMarkers[k] <= t { MarkerWasThere(cfg, rest, s, cfg.lineMarkers[k]); }
    }
  }

  lemma NoMarkerAtBlank(cfg: Config, t: string)
    requires BlankFree(cfg) && t != [] && (t[0] == ' ' || t[0] == '\n')
    ensures !BlockStarts(cfg, t) && !AnyMarker(t, cfg.lineMarkers)
  {
  }

  lemma InterpolationStays(cfg: Config, rest: string, s: State)
    requires rest != [] && s.mode.Text? && s.mode.delim == '`' && !s.mode.escaped
    ensures Interpolates(Lex(cfg, rest, s)) <==> Interpolates(rest)
  {
    var t := Lex(cfg, rest, s);
    if |t| >= 2 { LexKeepsPositions(cfg, rest, s, 1); }
    if |rest| >= 2 {
      var (c, s') := Step(cfg, rest, s);
      assert t == [c] + Lex(cfg, rest[1..], s');
      if Interpolates(rest) {
        assert s'.mode == Opening;
      }
    }
  }

  /** Where the stripped text is read as code, no comment starts. */
  lemma NoCommentLeft(cfg: Config, rest: string, s: State)
    requires BlankFree(cfg) && rest != [] && CleanMode(s.mode) == Code
    ensures var t := Lex(cfg, rest, s); !BlockStarts(cfg, t) && !AnyMarker(t, cfg.lineMarkers)
  {
    if Commented(cfg, rest, s) {
      hide BlockStarts, AnyMarker;
      NoMarkerAtBlank(cfg, Lex(cfg, rest, s));
    } else {
      hide BlockStarts, AnyMarker;
      NoMarkerInCode(cfg, rest, s);
    }
  }

  lemma RescanCode(cfg: Config, rest: string, s: State, w: State, base: seq<nat>)
    requires BlankFree(cfg) && rest != [] && w.mode != Done && Follows(s, w, base)
    requires w.mode == Code
    ensures var (c, s') := Step(cfg, rest, s);
            var t := Lex(cfg, rest, s);
            var (c', w') := Step(cfg, t, w);
            && c' == c && Step(NoComments(cfg), t, w) == (c', w')
            && (if w'.mode == Done then base == [] ==> s'.mode == Done else Follows(s', w', base))
  {
    var t := Lex(cfg, rest, s);
    assert t[0] == Step(cfg, rest, s).0;
    NoCommentLeft(cfg, rest, s);
    if Commented(cfg, rest, s) { BlankIsPlain(cfg, t); }
    assert !AnyMarker(t, []) && !BlockStarts(NoComments(cfg), t);
    hide AnyMarker, BlockStarts, Lex, BlankFree, BlockEnds;
    assert w.stack != [] ==> s.stack[..|s.stack| - 1] == base + w.stack[..|w.stack| - 1];
  }

  lemma BlankIsPlain(cfg: Config, t: string)
    requires BlankFree(cfg) && t != [] && (t[0] == ' ' || t[0] == '\n')
    ensures t[0] !in cfg.delims
  {
  }

  lemma RescanText(cfg: Config, rest: string, s: State, w: State, base: seq<nat>)
    requires BlankFree(cfg) && rest != [] && w.mode != Done && Follows(s, w, base)
    requires w.mode != Code
    ensures var (c, s') := Step(cfg, rest, s);
            var t := Lex(cfg, rest, s);
            var (c', w') := Step(cfg, t, w);
            && c' == c && Step(NoComments(cfg), t, w) == (c', w')
            && (if w'.mode == Done then base == [] ==> s'.mode == Done else Follows(s', w', base))
  {
    var t := Lex(cfg, rest, s);
    assert t[0] == Step(cfg, rest, s).0;
    if s.mode.Text? && s.mode.delim == '`' && !s.mode.escaped { InterpolationStays(cfg, rest, s); }
    hide AnyMarker, BlockStarts, Interpolates, Lex, BlankFree;
    assert s.stack + [s.depth] == base + (w.stack + [w.depth]);
  }

  lemma RescanStep(cfg: Config, rest: string, s: State, w: State, base: seq<nat>)
    requires BlankFree(cfg) && rest != [] && w.mode != Done && Follows(s, w, base)
    ensures var (c, s') := Step(cfg, rest, s);
            var t := Lex(cfg, rest, s);
            var (c', w') := Step(cfg, t, w);
            && c' == c && Step(NoComments(cfg), t, w) == (c', w')
            && (if w'.mode == Done then base == [] ==> s'.mode == Done else Follows(s', w', base))
  {
    hide Step, Lex, Follows;
    if w.mode == Code { RescanCode(cfg, rest, s, w, base); } else { RescanText(cfg, rest, s, w, base); }
  }

  /**
   Rescanning stripped text finds no comment: the scan leaves the text as it is, and it is the same scan whether
   or not it looks for comments.  With nothing left on the outer stack it reaches the end of the text.
   */
  lemma {:induction false} Rescan(cfg: Config, rest: string, s: State, w: State, base: seq<nat>)
    requires BlankFree(cfg) && Follows(s, w, base)
    ensures var t := Lex(cfg, rest, s);
            && Lex(cfg, t, w) == Lex(NoComments(cfg), t, w)
            && Lex(cfg, t, w) <= t
            && (base == [] ==> Lex(cfg, t, w) == t)
    decreases |rest|
  {
    hide Step, BlankFree, Follows;
    FollowsDone(s, w, base);
    if rest != [] && w.mode != Done {
      RescanStep(cfg, rest, s, w, base);
      var t := Lex(cfg, rest, s);
      var (c, s') := Step(cfg, rest, s);
      var w' := Step(cfg, t, w).1;
      assert t == [c] + Lex(cfg, rest[1..], s') && t[1..] == Lex(cfg, rest[1..], s');
      if w'.mode != Done { Rescan(cfg, rest[1..], s', w', base); }
    }
  }

  lemma FollowsDone(s: State, w: State, base: seq<nat>)
    requires Follows(s, w, base)
    ensures s.mode == Done <==> w.mode == Done
  {
  }

  /** Stripping twice is stripping once. */
  lemma StripIsIdempotent(cfg: Config, source: string)
    requires BlankFree(cfg)
    ensures Lex(cfg, Lex(cfg, source, Start(0)), Start(0)) == Lex(cfg, source, Start(0))
  {
    hide Lex;
    Rescan(cfg, source, Start(0), Start(0), []);
  }

  /**
   Inside stripped text, wherever an interpolation begins, scanning it with and without comment markers takes the
   same characters, and leaves them as they are.
   */
  lemma InterpolationAfterStripping(cfg: Config, source: string, depths: seq<nat>)
    requires BlankFree(cfg)
    ensures var t := Lex(cfg, source, State(Code, 1, depths));
            && Lex(cfg, t, Start(1)) == Lex(NoComments(cfg), t, Start(1))
            && Lex(cfg, t, Start(1)) <= t
  {
    hide Lex;
    Rescan(cfg, source, State(Code, 1, depths), Start(1), depths);
  }

  /** Blanks in a marker are the exception: blanking a comment can complete a longer marker. */
  lemma BlankInMarkerBreaksIdempotence()
    ensures var cfg := Config(["-- "], "{", "}", {});
            var once := Lex(cfg, "--{}", Start(0));
            once == "--  " && Lex(cfg, once, Start(0)) == "    "
  {
    var cfg := Config(["-- "], "{", "}", {});
    var s := Start(0);
    assert !("-- " <= "--{}") by { assert "-- "[2] != "--{}"[2]; }
    LexOne(cfg, "--{}", s, '-', s);
    LexOne(cfg, "-{}", s, '-', s);
    LexOne(cfg, "{}", s, ' ', State(Block, 0, []));
    LexOne(cfg, "}", State(Block, 0, []), ' ', s);
    assert cfg.lineMarkers[0] <= "--  ";
    LexLine(cfg, "--  ", s);
  }

  lemma LexOne(cfg: Config, rest: string, s: State, c: char, s': State)
    requires rest != [] && s.mode != Done && Step(cfg, rest, s) == (c, s')
    ensures Lex(cfg, rest, s) == [c] + Lex(cfg, rest[1..], s')
  {
  }

  /** A line comment without a line break blanks the rest. */
  lemma {:induction false} LexLine(cfg: Config, rest: string, s: State)
    requires s.mode == Line || (s.mode == Code && (rest != [] ==> !BlockStarts(cfg, rest) && AnyMarker(rest, cfg.lineMarkers)))
    requires '\n' !in rest
    ensures |Lex(cfg, rest, s)| == |rest| && forall k :: 0 <= k < |rest| ==> Lex(cfg, rest, s)[k] == ' '
    decreases |rest|
  {
    hide AnyMarker, BlockStarts;
    if rest != [] { LexLine(cfg, rest[1..], s.(mode := Line)); }
  }

  lemma PlainCode(cfg: Config, rest: string)
    requires rest != [] && cfg.delims == {} && cfg.blockStart == "" && !AnyMarker(rest, cfg.lineMarkers)
    ensures Step(cfg, rest, Start(0)) == (rest[0], Start(0)) && Start(0).mode != Done
  {
    hide AnyMarker;
  }

  lemma TailSlices(rest: string, k: nat)
    requires rest != [] && k < |rest|
    ensures rest[1..][k..] == rest[k + 1..] && rest[0..] == rest
    ensures [rest[0]] + rest[1..][..k] == rest[..k + 1]
  {
  }

  lemma Copied(a: string, b: string, c: string)
    ensures a + (b + c) == (a + b) + c
  {
  }

  /** Code in which no comment starts before position `n` is copied up to there. */
  lemma {:induction false} CodeIsCopied(cfg: Config, rest: string, n: nat)
    requires n <= |rest| && cfg.delims == {} && cfg.blockStart == ""
    requires forall k :: 0 <= k < n ==> !AnyMarker(rest[k..], cfg.lineMarkers)
    ensures Lex(cfg, rest, Start(0)) == rest[..n] + Lex(cfg, rest[n..], Start(0))
    decreases n
  {
    hide *;
    if n == 0 {
      assert rest[0..] == rest && rest[..0] == [];
    } else {
      TailSlices(rest, n - 1);
      PlainCode(cfg, rest);
      LexOne(cfg, rest, Start(0), rest[0], Start(0));
      forall k | 0 <= k < n - 1 ensures !AnyMarker(rest[1..][k..], cfg.lineMarkers) { TailSlices(rest, k); }
      CodeIsCopied(cfg, rest[1..], n - 1);
      Copied([rest[0]], rest[1..][..n - 1], Lex(cfg, rest[n..], Start(0)));
    }
  }

  function Spaces(n: nat): (t: string)
    ensures |t| == n && forall k :: 0 <= k < n ==> t[k] == ' '
  {
    seq(n, _ => ' ')
  }

  lemma NoEarlierMarker(m: string, n: nat, k: nat)
    requires k < |m| && NoBlank(m) && n > 0
    ensures !AnyMarker((m + m + Spaces(n))[k..], [m + Spaces(n)])
  {
    var text := m + m + Spaces(n);
    assert text[k..][|m|] == text[k + |m|] == m[k];
    assert (m + Spaces(n))[|m|] == ' ';
  }

  /** A text that begins with the only marker and has no line break is blanked. */
  lemma MarkerBlanks(cfg: Config, text: string)
    requires cfg.blockStart == "" && |cfg.lineMarkers| == 1 && cfg.lineMarkers[0] <= text && '\n' !in text
    ensures var t := Lex(cfg, text, Start(0)); |t| == |text| && forall k :: 0 <= k < |text| ==> t[k] == ' '
  {
    LexLine(cfg, text, Start(0));
  }

  /** Every marker with blanks behind it breaks idempotence: alone, as the only marker, no other comments and no strings. */
  lemma BlankBehindMarkerBreaksIdempotence(m: string, n: nat)
    requires m != "" && NoBlank(m) && n > 0
    ensures var cfg, text := Config([m + Spaces(n)], "", "", {}), m + m + Spaces(n);
            Lex(cfg, Lex(cfg, text, Start(0)), Start(0)) != Lex(cfg, text, Start(0))
  {
    var marker := m + Spaces(n);
    var cfg, text := Config([marker], "", "", {}), m + m + Spaces(n);
    hide AnyMarker, Lex;
    forall k | 0 <= k < |m| ensures !AnyMarker(text[k..], cfg.lineMarkers) { NoEarlierMarker(m, n, k); }
    CodeIsCopied(cfg, text, |m|);
    assert text[..|m|] == m && text[|m|..] == marker;
    NoBreakInMarker(m, n);
    MarkerBlanks(cfg, marker);
    var once := Lex(cfg, text, Start(0));
    var blanks := Lex(cfg, marker, Start(0));
    assert once == m + blanks && blanks[0] == ' ';
    assert marker <= once by { assert once[..|marker|] == marker; }
    assert '\n' !in once;
    MarkerBlanks(cfg, once);
    assert once[0] == m[0];
  }

  lemma NoBreakInMarker(m: string, n: nat)
    requires NoBlank(m)
    ensures '\n' !in m + Spaces(n) && '\n' !in m
  {
  }

  /** For a marker without blanks, or with some behind it, the condition is exact. */
  lemma LoneMarkerIsIdempotentIff(m: string, n: nat)
    requires m != "" && NoBlank(m)
    ensures var cfg := Config([m + Spaces(n)], "", "", {});
            (forall text :: Lex(cfg, Lex(cfg, text, Start(0)), Start(0)) == Lex(cfg, text, Start(0))) <==> BlankFree(cfg)
  {
    var cfg := Config([m + Spaces(n)], "", "", {});
    hide Lex;
    if n == 0 {
      assert m + Spaces(0) == m;
      forall text ensures Lex(cfg, Lex(cfg, text, Start(0)), Start(0)) == Lex(cfg, text, Start(0)) {
        StripIsIdempotent(cfg, text);
      }
    } else {
      BlankBehindMarkerBreaksIdempotence(m, n);
      assert cfg.lineMarkers[0][|m|] == ' ';
    }
  }
}
