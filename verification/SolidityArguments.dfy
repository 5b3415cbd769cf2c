/**
 `backend/app/parsing/solidity_arguments.py`: literals to try for a Solidity type, and the rows that combine them.

 Character classes and the value of a run of digits are parameters; the type syntax itself is modelled as it is read.
 */
module SolidityArguments {
  import opened Options
  import opened Texts

  datatype Chars = Chars(space: char -> bool, digit: char -> bool, upper: char -> bool, number: string -> nat)

  datatype Candidate = Candidate(literal: string, provenance: string, typeName: string)

  // ----- text -------------------------------------------------------------------------------------------------------

  predicate EndsWith(t: string, p: string) {
    |p| <= |t| && t[|t| - |p|..] == p
  }

  /** `replace(p, put)`, from the left and without overlaps. */
  function Replace(t: string, p: string, put: string): (r: string)
    requires p != "" && |put| <= |p|
    ensures |r| <= |t|
  {
    if t == "" then ""
    else if p <= t then put + Replace(t[|p|..], p, put)
    else [t[0]] + Replace(t[1..], p, put)
  }

  /** Length of the run of characters that are, or are not, spaces. */
  function WordEnd(c: Chars, t: string): (n: nat)
    ensures n <= |t|
    ensures t != "" && !c.space(t[0]) ==> n > 0
  {
    if t == "" || c.space(t[0]) then 0 else 1 + WordEnd(c, t[1..])
  }

  /** `split()`. */
  function Words(c: Chars, t: string): (w: seq<string>)
    ensures forall k :: 0 <= k < |w| ==> 0 < |w[k]| <= |t|
    decreases |t|
  {
    if t == "" then []
    else if c.space(t[0]) then Words(c, t[1..])
    else [t[..WordEnd(c, t)]] + Words(c, t[WordEnd(c, t)..])
  }

  function DropWords(w: seq<string>, dropped: set<string>): (r: seq<string>)
    ensures forall k :: 0 <= k < |r| ==> r[k] in w && r[k] !in dropped
  {
    if w == [] then []
    else (if w[0] in dropped then [] else [w[0]]) + DropWords(w[1..], dropped)
  }

  /** `find(ch)`. */
  function FindChar(t: string, ch: char): (k: int)
    ensures -1 <= k < |t| && (k >= 0 ==> t[k] == ch)
    ensures k == -1 <==> ch !in t
  {
    if t == "" then -1
    else if t[0] == ch then 0
    else
      var k := FindChar(t[1..], ch);
      if k == -1 then -1 else k + 1
  }

  /** `rfind(ch)`. */
  function RFindChar(t: string, ch: char): (k: int)
    ensures -1 <= k < |t| && (k >= 0 ==> t[k] == ch)
    ensures forall m :: k < m < |t| ==> t[m] != ch
  {
    if t == "" then -1
    else if t[|t| - 1] == ch then |t| - 1
    else RFindChar(t[..|t| - 1], ch)
  }

  predicate AllDigits(c: Chars, t: string) {
    forall k :: 0 <= k < |t| ==> c.digit(t[k])
  }

  // ----- parameter lists ----------------------------------------------------------------------------------------------

  /** The parts of `text[start..]` between top-level commas, with `index` characters read. */
  function SplitFrom(c: Chars, text: string, start: nat, index: nat, depth: nat): (parts: seq<string>)
    requires start <= index <= |text|
    ensures forall k :: 0 <= k < |parts| ==> |parts[k]| <= |text|
    decreases |text| - index
  {
    if index == |text| then
      var tail := Strip(text[start..], c.space);
      if tail != "" then [tail] else []
    else if text[index] in "([{" then SplitFrom(c, text, start, index + 1, depth + 1)
    else if text[index] in ")]}" then SplitFrom(c, text, start, index + 1, if depth > 0 then depth - 1 else 0)
    else if text[index] == ',' && depth == 0 then
      [Strip(text[start..index], c.space)] + SplitFrom(c, text, index + 1, index + 1, 0)
    else SplitFrom(c, text, start, index + 1, depth)
  }

  /** `_split_args`. */
  method SplitArgs(c: Chars, text: string) returns (parts: seq<string>)
    ensures parts == SplitFrom(c, text, 0, 0, 0)
  {
    parts := [];
    var depth: nat, start: nat := 0, 0;
    for index := 0 to |text|
      invariant start <= index
      invariant parts + SplitFrom(c, text, start, index, depth) == SplitFrom(c, text, 0, 0, 0)
    {
      var ch := text[index];
      if ch in "([{" {
        depth := depth + 1;
      } else if ch in ")]}" {
        depth := if depth > 0 then depth - 1 else 0;
      } else if ch == ',' && depth == 0 {
        parts := parts + [Strip(text[start..index], c.space)];
        start := index + 1;
      }
    }
    var tail := Strip(text[start..], c.space);
    if tail != "" { parts := parts + [tail]; }
  }

  function Tokens(c: Chars, part: string): (w: seq<string>)
    ensures forall k :: 0 <= k < |w| ==> 0 < |w[k]| <= |part|
  {
    DropWords(Words(c, Replace(Replace(Replace(part, "memory", " "), "calldata", " "), "storage", " ")), {"payable", "indexed"})
  }

  function FirstTokens(c: Chars, parts: seq<string>, bound: nat): (r: Option<seq<string>>)
    requires forall k :: 0 <= k < |parts| ==> |parts[k]| <= bound
    ensures r.Some? ==> |r.value| == |parts| && forall k :: 0 <= k < |r.value| ==> 0 < |r.value[k]| <= bound
  {
    if parts == [] then Some([])
    else
      var tokens := Tokens(c, parts[0]);
      if tokens == [] then None
      else
        var rest := FirstTokens(c, parts[1..], bound);
        if rest.None? then None else Some([tokens[0]] + rest.value)
  }

  /** The text between the first `(` and the last `)`; empty if they are not in that order. */
  function Params(header: string): (p: string)
    requires '(' in header
    ensures |p| <= |header|
    ensures p == "" || |p| + 2 <= |header|
  {
    var lo, hi := FindChar(header, '('), RFindChar(header, ')');
    if hi >= 0 && lo + 1 <= hi then header[lo + 1..hi] else ""
  }

  /** `parameter_types`. */
  function ParameterTypes(c: Chars, header: string): (r: Option<seq<string>>)
    ensures r.Some? ==> forall k :: 0 <= k < |r.value| ==> 0 < |r.value[k]| && |r.value[k]| + 2 <= |header|
  {
    if '(' !in header then Some([])
    else
      var params := Params(header);
      if Strip(params, c.space) == "" then Some([])
      else FirstTokens(c, SplitFrom(c, params, 0, 0, 0), |params|)
  }

  // ----- candidates -----------------------------------------------------------------------------------------------------

  /** `_ARRAY.fullmatch`: the element type and the digits between the last brackets. */
  function ArrayParts(c: Chars, t: string): (r: Option<(string, string)>)
    ensures r.Some? ==> 0 < |r.value.0| < |t|
  {
    var open := RFindChar(t, '[');
    if open > 0 && EndsWith(t, "]") && open < |t| - 1 && '\n' !in t[..open] && AllDigits(c, t[open + 1..|t| - 1]) then
      Some((t[..open], t[open + 1..|t| - 1]))
    else None
  }

  /** The digits of `prefix` followed by digits, as a whole. */
  function Width(c: Chars, t: string, prefix: string): Option<string> {
    if prefix <= t && AllDigits(c, t[|prefix|..]) then Some(t[|prefix|..]) else None
  }

  predicate BadWidth(c: Chars, digits: string) {
    var width := if digits != "" then c.number(digits) else 256;
    width == 0 || width > 256 || width % 8 != 0
  }

  /** `_candidates`: `None`, or one to four literals, on every type text. */
  function Candidates(c: Chars, t: string): (r: Option<seq<Candidate>>)
    ensures r.Some? ==> 1 <= |r.value| <= 4
    decreases |t|, 0
  {
    if t == "" || Contains(t, "mapping") || "function" <= t then None
    else
      var parts := ArrayParts(c, Replace(t, " ", ""));
      if parts.Some? then ArrayCandidates(c, t, parts.value.0, parts.value.1)
      else if Width(c, t, "uint").Some? then
        if BadWidth(c, Width(c, t, "uint").value) then None
        else Some([Candidate("0", "zero", t), Candidate("1", "one", t), Candidate("type(" + t + ").max", "max", t)])
      else if Width(c, t, "int").Some? then
        if BadWidth(c, Width(c, t, "int").value) then None
        else Some([Candidate("0", "zero", t), Candidate("1", "one", t), Candidate("-1", "boundary", t),
                   Candidate("type(" + t + ").min", "min", t)])
      else if t == "bool" then Some([Candidate("false", "zero", t), Candidate("true", "one", t)])
      else if t == "address" then Some([Candidate("address(0)", "zero", t), Candidate("address(1)", "one", t)])
      else if t == "bytes" then Some([Candidate("hex\"\"", "zero", t), Candidate("hex\"01\"", "one", t)])
      else if Width(c, t, "bytes").Some? then
        if 1 <= c.number(Width(c, t, "bytes").value) <= 32 then Some([Candidate(t + "(0)", "zero", t)]) else None
      else if "enum " <= t then Some([Candidate("0", "zero", t)])
      else if "contract " <= t then Some([Candidate("address(1)", "contract-address", t)])
      else if "(" <= t && EndsWith(t, ")") then
        var inner := ParameterTypes(c, "f" + t);
        if inner.None? then None
        else
          var pieces := Pieces(c, inner.value, |t|);
          if pieces.None? then None else Some([Candidate("(" + Commas(pieces.value) + ")", "tuple", t)])
      else if c.upper(t[0]) then Some([Candidate("address(1)", "contract-address", t)])
      else None
  }

  function ArrayCandidates(c: Chars, t: string, inner: string, length: string): (r: Option<seq<Candidate>>)
    requires |inner| < |t|
    ensures r.Some? ==> 1 <= |r.value| <= 2
    decreases |t|, 0, 0
  {
    if length != "" && c.number(length) > 1 then None
    else
      var found := Candidates(c, inner);
      if found.None? then None
      else
        var element := Candidate("[" + found.value[0].literal + "]", "boundary", t);
        if length == "1" then Some([element])
        else if length != "" then None
        else Some([Candidate("new " + inner + "[](0)", "zero", t), element])
  }

  /** The first literal of every component of a tuple. */
  function Pieces(c: Chars, types: seq<string>, bound: nat): (r: Option<seq<string>>)
    requires forall k :: 0 <= k < |types| ==> |types[k]| < bound
    ensures r.Some? ==> |r.value| == |types|
    decreases bound, 0, |types|
  {
    if types == [] then Some([])
    else
      var found := Candidates(c, types[0]);
      if found.None? then None
      else
        var rest := Pieces(c, types[1..], bound);
        if rest.None? then None else Some([found.value[0].literal] + rest.value)
  }

  function Commas(pieces: seq<string>): string {
    if pieces == [] then "" else if |pieces| == 1 then pieces[0] else pieces[0] + ", " + Commas(pieces[1..])
  }

  // ----- reading types back ---------------------------------------------------------------------------------------------

  /** How many brackets are open after `p`; a closing bracket never goes below zero. */
  function DepthAfter(p: string, depth: nat): nat {
    if p == "" then depth
    else DepthAfter(p[1..], if p[0] in "([{" then depth + 1 else if p[0] in ")]}" && depth > 0 then depth - 1 else depth)
  }

  /** No comma of `p` stands outside brackets. */
  predicate OnePart(p: string, depth: nat) {
    p == "" || (!(p[0] == ',' && depth == 0) &&
      OnePart(p[1..], if p[0] in "([{" then depth + 1 else if p[0] in ")]}" && depth > 0 then depth - 1 else depth))
  }

  /** A type text as it stands in a signature: one word, its brackets closed, no data location or modifier. */
  predicate TypeText(c: Chars, t: string) {
    && t != "" && (forall k :: 0 <= k < |t| ==> !c.space(t[k]))
    && OnePart(t, 0) && DepthAfter(t, 0) == 0
    && !Contains(t, "memory") && !Contains(t, "calldata") && !Contains(t, "storage")
    && t !in {"payable", "indexed"}
  }

  function Listed(types: seq<string>): string {
    if types == [] then "" else if |types| == 1 then types[0] else types[0] + "," + Listed(types[1..])
  }

  lemma {:induction false} PartIsRead(c: Chars, text: string, start: nat, index: nat, end: nat, depth: nat)
    requires start <= index <= end <= |text| && OnePart(text[index..end], depth)
    ensures SplitFrom(c, text, start, index, depth) == SplitFrom(c, text, start, end, DepthAfter(text[index..end], depth))
    decreases end - index
  {
    if index < end {
      var p := text[index..end];
      assert p[0] == text[index] && p[1..] == text[index + 1..end];
      var next := if p[0] in "([{" then depth + 1 else if p[0] in ")]}" && depth > 0 then depth - 1 else depth;
      PartIsRead(c, text, start, index + 1, end, next);
    }
  }

  lemma WordIsStripped(t: string, space: char -> bool)
    requires forall k :: 0 <= k < |t| ==> !space(t[k])
    ensures Strip(t, space) == t
  {
  }

  /** A listed part is split off, whatever follows it. */
  lemma {:induction false} ListIsSplit(c: Chars, text: string, start: nat, types: seq<string>)
    requires start <= |text| && text[start..] == Listed(types)
    requires forall k :: 0 <= k < |types| ==> TypeText(c, types[k])
    ensures SplitFrom(c, text, start, start, 0) == types
    decreases |types|
  {
    hide SplitFrom, TypeText, Strip;
    if types == [] {
      EmptyTail(c, text);
    } else {
      var t := types[0];
      var end := start + |t|;
      FirstListed(types);
      assert text[start..end] == text[start..][..|t|] == t;
      TypeParts(c, t);
      PartIsRead(c, text, start, start, end, 0);
      WordIsStripped(t, c.space);
      if |types| == 1 {
        assert end == |text|;
        LastPart(c, text, start);
      } else {
        assert text[end] == text[start..][|t|] == ',';
        assert text[end + 1..] == text[start..][|t| + 1..] == Listed(types[1..]);
        NextPart(c, text, start, end);
        ListIsSplit(c, text, end + 1, types[1..]);
        assert [t] + types[1..] == types;
      }
    }
  }

  lemma FirstListed(types: seq<string>)
    requires types != []
    ensures |types[0]| <= |Listed(types)| && Listed(types)[..|types[0]|] == types[0]
    ensures |types| == 1 ==> Listed(types) == types[0]
    ensures |types| > 1 ==> |Listed(types)| > |types[0]| && Listed(types)[|types[0]|] == ','
                            && Listed(types)[|types[0]| + 1..] == Listed(types[1..])
  {
  }

  lemma TypeParts(c: Chars, t: string)
    requires TypeText(c, t)
    ensures OnePart(t, 0) && DepthAfter(t, 0) == 0 && t != "" && forall k :: 0 <= k < |t| ==> !c.space(t[k])
  {
  }

  lemma EmptyTail(c: Chars, text: string)
    ensures SplitFrom(c, text, |text|, |text|, 0) == []
  {
  }

  lemma LastPart(c: Chars, text: string, start: nat)
    requires start <= |text| && Strip(text[start..], c.space) == text[start..] != ""
    ensures SplitFrom(c, text, start, |text|, 0) == [text[start..]]
  {
  }

  lemma NextPart(c: Chars, text: string, start: nat, end: nat)
    requires start <= end < |text| && text[end] == ',' && Strip(text[start..end], c.space) == text[start..end]
    ensures SplitFrom(c, text, start, end, 0) == [text[start..end]] + SplitFrom(c, text, end + 1, end + 1, 0)
  {
  }

  lemma {:induction false} NothingToReplace(t: string, p: string, put: string)
    requires p != "" && |put| <= |p| && !Contains(t, p)
    ensures Replace(t, p, put) == t
    decreases |t|
  {
    if t != "" {
      assert t[0..] == t;
      forall k | 0 <= k <= |t[1..]| ensures !(p <= t[1..][k..]) { assert t[1..][k..] == t[k + 1..]; }
      NothingToReplace(t[1..], p, put);
    }
  }

  lemma {:induction false} WordRuns(c: Chars, t: string)
    requires forall k :: 0 <= k < |t| ==> !c.space(t[k])
    ensures WordEnd(c, t) == |t|
  {
    if t != "" { WordRuns(c, t[1..]); }
  }

  lemma TypeIsItsToken(c: Chars, t: string)
    requires TypeText(c, t)
    ensures Tokens(c, t) == [t]
  {
    NothingToReplace(t, "memory", " ");
    NothingToReplace(t, "calldata", " ");
    NothingToReplace(t, "storage", " ");
    OneWord(c, t);
    hide Replace, Contains, OnePart, DepthAfter, Words, DropWords;
  }

  lemma OneWord(c: Chars, t: string)
    requires t != "" && (forall k :: 0 <= k < |t| ==> !c.space(t[k])) && t !in {"payable", "indexed"}
    ensures DropWords(Words(c, t), {"payable", "indexed"}) == [t]
  {
    WordRuns(c, t);
    assert t[..|t|] == t && t[|t|..] == "";
    assert Words(c, "") == [];
    assert Words(c, t) == [t] + [];
    assert [t] + [] == [t] && [t][1..] == [];
  }

  lemma {:induction false} TypesAreTokens(c: Chars, types: seq<string>, bound: nat)
    requires forall k :: 0 <= k < |types| ==> TypeText(c, types[k]) && |types[k]| <= bound
    ensures FirstTokens(c, types, bound) == Some(types)
  {
    hide Tokens, TypeText;
    if types != [] {
      TypeIsItsToken(c, types[0]);
      TypesAreTokens(c, types[1..], bound);
      assert [types[0]] + types[1..] == types;
    }
  }

  lemma FirstChar(t: string, n: nat, ch: char)
    requires n < |t| && t[n] == ch && forall k :: 0 <= k < n ==> t[k] != ch
    ensures FindChar(t, ch) == n
  {
    if n > 0 { FirstChar(t[1..], n - 1, ch); }
  }

  /** The types written into a header are the types read from it. */
  lemma ParametersRoundTrip(c: Chars, name: string, types: seq<string>)
    requires '(' !in name && forall k :: 0 <= k < |types| ==> TypeText(c, types[k])
    ensures ParameterTypes(c, name + "(" + Listed(types) + ")") == Some(types)
  {
    var header := name + "(" + Listed(types) + ")";
    var params := Listed(types);
    FirstChar(header, |name|, '(');
    assert header[|header| - 1] == ')';
    assert RFindChar(header, ')') == |header| - 1;
    assert header[|name| + 1..|header| - 1] == params;
    assert Params(header) == params;
    hide SplitFrom, TypeText, Strip, Listed, FirstTokens, Params, FindChar, RFindChar;
    assert params[0..] == params;
    ListIsSplit(c, params, 0, types);
    SplitIsShort(c, params);
    TypesAreTokens(c, types, |params|);
    if Strip(params, c.space) == "" { ListedIsBlank(c, types); }
  }

  lemma SplitIsShort(c: Chars, text: string)
    ensures forall k :: 0 <= k < |SplitFrom(c, text, 0, 0, 0)| ==> |SplitFrom(c, text, 0, 0, 0)[k]| <= |text|
  {
  }

  lemma ListedIsBlank(c: Chars, types: seq<string>)
    requires Strip(Listed(types), c.space) == "" && forall k :: 0 <= k < |types| ==> TypeText(c, types[k])
    ensures types == []
  {
    if types != [] {
      FirstListed(types);
      var t := Listed(types);
      TypeParts(c, types[0]);
      assert t[0] == t[..|types[0]|][0] == types[0][0];
      NotBlank(t, c.space);
    }
  }

  lemma NotBlank(t: string, space: char -> bool)
    requires t != "" && !space(t[0])
    ensures Strip(t, space) != ""
  {
    assert TrimLeft(t, space) == t;
    KeepsHead(t, space);
  }

  lemma {:induction false} KeepsHead(t: string, space: char -> bool)
    requires t != "" && !space(t[0])
    ensures TrimRight(t, space) != ""
  {
    if space(t[|t| - 1]) { KeepsHead(t[..|t| - 1], space); }
  }

  /** The literals a list of types begins with, if each of them has one. */
  function Firsts(c: Chars, types: seq<string>): (r: Option<seq<string>>)
  {
    if types == [] then Some([])
    else
      var found := Candidates(c, types[0]);
      var rest := Firsts(c, types[1..]);
      if found.None? || rest.None? then None else Some([found.value[0].literal] + rest.value)
  }

  lemma {:induction false} PiecesAreFirsts(c: Chars, types: seq<string>, bound: nat)
    requires forall k :: 0 <= k < |types| ==> |types[k]| < bound
    ensures Pieces(c, types, bound) == Firsts(c, types)
  {
    hide Candidates;
    if types != [] { PiecesAreFirsts(c, types[1..], bound); }
  }

  /**
   A tuple type is supported exactly if all its components are, and its one literal is made of the first literal of each
   component, in order.
   */
  lemma TupleCandidates(c: Chars, types: seq<string>)
    requires forall k :: 0 <= k < |types| ==> TypeText(c, types[k])
    ensures var t := "(" + Listed(types) + ")";
            var firsts := Firsts(c, types);
            !Contains(t, "mapping") ==>
              Candidates(c, t) == if firsts.None? then None
                                  else Some([Candidate("(" + Commas(firsts.value) + ")", "tuple", t)])
  {
    var t := "(" + Listed(types) + ")";
    hide *;
    TupleHeader(types);
    ParametersRoundTrip(c, "f", types);
    TypesAreShort(c, types);
    PiecesAreFirsts(c, types, |t|);
    if !Contains(t, "mapping") { TupleBranch(c, t, types); }
  }

  lemma TupleHeader(types: seq<string>)
    ensures var t := "(" + Listed(types) + ")";
            && "f" + t == "f" + "(" + Listed(types) + ")" && '(' !in "f"
            && |t| == |Listed(types)| + 2 && t[0] == '(' && t[|t| - 1] == ')'
  {
  }

  lemma TypesAreShort(c: Chars, types: seq<string>)
    ensures forall k :: 0 <= k < |types| ==> |types[k]| <= |Listed(types)|
  {
  }

  lemma ReplaceStep(t: string, p: string, put: string)
    requires p != "" && |put| <= |p| && t != ""
    ensures Replace(t, p, put) == if p <= t then put + Replace(t[|p|..], p, put) else [t[0]] + Replace(t[1..], p, put)
    ensures Replace("", p, put) == ""
  {
  }

  /** Replacing keeps the last character if it is not in what is replaced. */
  lemma {:induction false} LastReplaced(t: string, p: string, put: string)
    requires p != "" && |put| <= |p| && t != "" && t[|t| - 1] !in p
    ensures var r := Replace(t, p, put); r != "" && r[|r| - 1] == t[|t| - 1]
    decreases |t|
  {
    hide Replace;
    ReplaceStep(t, p, put);
    if p <= t {
      assert p == t[..|p|] && |p| < |t|;
      LastReplaced(t[|p|..], p, put);
    } else if |t| > 1 {
      LastReplaced(t[1..], p, put);
    } else {
      assert t[1..] == "";
    }
  }

  lemma TupleBranch(c: Chars, t: string, types: seq<string>)
    requires t != "" && t[0] == '(' && t[|t| - 1] == ')' && !Contains(t, "mapping")
    requires ParameterTypes(c, "f" + t) == Some(types) && forall k :: 0 <= k < |types| ==> |types[k]| < |t|
    ensures var pieces := Pieces(c, types, |t|);
            Candidates(c, t) == if pieces.None? then None else Some([Candidate("(" + Commas(pieces.value) + ")", "tuple", t)])
  {
    LastReplaced(t, " ", "");
    NoArray(c, Replace(t, " ", ""));
    NotElementary(c, t);
    hide Pieces, ParameterTypes, ArrayParts, Width, Contains, Commas, ArrayCandidates, Replace, EndsWith, BadWidth;
  }

  /** A text that begins with a parenthesis is none of the types with a name. */
  lemma NotElementary(c: Chars, t: string)
    requires t != "" && t[0] == '(' && t[|t| - 1] == ')'
    ensures Width(c, t, "uint").None? && Width(c, t, "int").None? && Width(c, t, "bytes").None?
    ensures t != "bool" && t != "address" && t != "bytes"
    ensures !("enum " <= t) && !("contract " <= t) && !("function" <= t)
    ensures "(" <= t && EndsWith(t, ")")
  {
  }

  lemma NoArray(c: Chars, t: string)
    requires t != "" && t[|t| - 1] != ']'
    ensures ArrayParts(c, t).None?
  {
    hide RFindChar;
  }

  // ----- combinations -----------------------------------------------------------------------------------------------------

  function Min(a: int, b: int): int {
    if a < b then a else b
  }

  function Max(a: int, b: int): int {
    if a > b then a else b
  }

  /** `candidates_for_type`: at least one and at most `limit` of the candidates, from the front. */
  function CandidatesForType(c: Chars, t: string, limit: int): (r: Option<seq<Candidate>>)
    ensures r.Some? <==> Candidates(c, Strip(t, c.space)).Some?
    ensures r.Some? ==> 1 <= |r.value| <= Max(1, Min(limit, 4)) && r.value <= Candidates(c, Strip(t, c.space)).value
    ensures r.Some? && limit >= 4 ==> r.value == Candidates(c, Strip(t, c.space)).value
    ensures r.Some? ==> var n := |Candidates(c, Strip(t, c.space)).value|;
                        |r.value| == if limit < 1 then 1 else if limit < n then limit else n
  {
    var bound := Max(1, Min(limit, 4));
    var found := Candidates(c, Strip(t, c.space));
    if found.None? then None else Some(found.value[..Min(bound, |found.value|)])
  }

  predicate Supported(c: Chars, types: seq<string>, limit: int) {
    forall k :: 0 <= k < |types| ==> CandidatesForType(c, types[k], limit).Some?
  }

  function ColumnOf(c: Chars, types: seq<string>, limit: int, k: nat): (col: seq<Candidate>)
    requires Supported(c, types, limit) && k < |types|
    ensures 1 <= |col| <= Max(1, Min(limit, 4))
  {
    CandidatesForType(c, types[k], limit).value
  }

  /** The rows that zip the columns, shorter columns repeating their last candidate. */
  ghost predicate Zipped(c: Chars, types: seq<string>, limit: int, rows: seq<seq<Candidate>>)
    requires Supported(c, types, limit)
  {
    forall j :: 0 <= j < |rows| ==>
      && |rows[j]| == |types|
      && forall k :: 0 <= k < |types| ==>
           rows[j][k] == ColumnOf(c, types, limit, k)[Min(j, |ColumnOf(c, types, limit, k)| - 1)]
  }

  /** `rows` is as long as the longest column. */
  ghost predicate AsLongAsLongest(c: Chars, types: seq<string>, limit: int, n: nat)
    requires Supported(c, types, limit)
  {
    && (forall k :: 0 <= k < |types| ==> |ColumnOf(c, types, limit, k)| <= n)
    && (exists k :: 0 <= k < |types| && |ColumnOf(c, types, limit, k)| == n)
  }

  /** `combine`. */
  method Combine(c: Chars, types: seq<string>, limit: int) returns (r: Option<seq<seq<Candidate>>>)
    ensures r.Some? <==> Supported(c, types, limit)
    ensures types == [] ==> r == Some([[]])
    ensures r.Some? && types != [] ==>
              && Zipped(c, types, limit, r.value)
              && (if limit >= 1 then AsLongAsLongest(c, types, limit, |r.value|) else r.value == [])
  {
    hide CandidatesForType, Zipped, AsLongAsLongest, ColumnOf, Supported, AreColumns;
    var columns: seq<seq<Candidate>> := [];
    for k := 0 to |types|
      invariant |columns| == k
      invariant forall m :: 0 <= m < k ==> CandidatesForType(c, types[m], limit) == Some(columns[m])
    {
      var found := CandidatesForType(c, types[k], limit);
      if found.None? {
        OneUnsupported(c, types, limit, k);
        return None;
      }
      columns := columns + [found.value];
    }
    TheColumns(c, types, limit, columns);
    if columns == [] { return Some([[]]); }
    var longest := Longest(columns);
    LongestColumn(c, types, limit, columns, longest);
    var width := Min(limit, longest);
    var rows: seq<seq<Candidate>> := [];
    NoRows(c, types, limit);
    for index := 0 to Max(width, 0)
      invariant |rows| == index && Zipped(c, types, limit, rows)
    {
      var row := seq(|columns|, k requires 0 <= k < |columns| => columns[k][Min(index, |columns[k]| - 1)]);
      RowAdded(c, types, limit, columns, rows, row);
      rows := rows + [row];
    }
    r := Some(rows);
  }

  lemma OneUnsupported(c: Chars, types: seq<string>, limit: int, k: nat)
    requires k < |types| && CandidatesForType(c, types[k], limit).None?
    ensures !Supported(c, types, limit)
  {
    hide CandidatesForType;
  }

  /** The collected columns are the candidates of the types. */
  predicate AreColumns(c: Chars, types: seq<string>, limit: int, columns: seq<seq<Candidate>>)
    requires Supported(c, types, limit)
  {
    |columns| == |types| && forall k :: 0 <= k < |types| ==> columns[k] == ColumnOf(c, types, limit, k)
  }

  lemma TheColumns(c: Chars, types: seq<string>, limit: int, columns: seq<seq<Candidate>>)
    requires |columns| == |types|
    requires forall m :: 0 <= m < |types| ==> CandidatesForType(c, types[m], limit) == Some(columns[m])
    ensures Supported(c, types, limit) && AreColumns(c, types, limit, columns)
    ensures forall k :: 0 <= k < |columns| ==> 1 <= |columns[k]| <= Max(1, Min(limit, 4))
  {
    hide CandidatesForType;
  }

  lemma LongestColumn(c: Chars, types: seq<string>, limit: int, columns: seq<seq<Candidate>>, n: nat)
    requires Supported(c, types, limit) && AreColumns(c, types, limit, columns)
    requires forall k :: 0 <= k < |columns| ==> |columns[k]| <= n
    requires exists k :: 0 <= k < |columns| && |columns[k]| == n
    ensures AsLongAsLongest(c, types, limit, n) && n <= Max(1, Min(limit, 4))
  {
    hide CandidatesForType;
    var k :| 0 <= k < |columns| && |columns[k]| == n;
    assert |ColumnOf(c, types, limit, k)| == n;
  }

  lemma NoRows(c: Chars, types: seq<string>, limit: int)
    requires Supported(c, types, limit)
    ensures Zipped(c, types, limit, [])
  {
  }

  lemma RowAdded(c: Chars, types: seq<string>, limit: int, columns: seq<seq<Candidate>>, rows: seq<seq<Candidate>>, row: seq<Candidate>)
    requires Supported(c, types, limit) && AreColumns(c, types, limit, columns) && Zipped(c, types, limit, rows)
    requires |row| == |columns|
    requires forall k :: 0 <= k < |columns| ==> |columns[k]| > 0 && row[k] == columns[k][Min(|rows|, |columns[k]| - 1)]
    ensures Zipped(c, types, limit, rows + [row])
  {
    hide CandidatesForType, ColumnOf;
  }

  /** `max(len(column) for column in columns)`. */
  method Longest(columns: seq<seq<Candidate>>) returns (n: nat)
    requires columns != []
    ensures forall k :: 0 <= k < |columns| ==> |columns[k]| <= n
    ensures exists k :: 0 <= k < |columns| && |columns[k]| == n
  {
    n := |columns[0]|;
    for k := 1 to |columns|
      invariant forall m :: 0 <= m < k ==> |columns[m]| <= n
      invariant exists m :: 0 <= m < k && |columns[m]| == n
    {
      if |columns[k]| > n { n := |columns[k]|; }
    }
  }

  /** Every candidate of every parameter is used in its position. */
  lemma EveryCandidateIsUsed(c: Chars, types: seq<string>, limit: int, rows: seq<seq<Candidate>>, k: nat, j: nat)
    requires Supported(c, types, limit) && Zipped(c, types, limit, rows) && AsLongAsLongest(c, types, limit, |rows|)
    requires k < |types| && j < |ColumnOf(c, types, limit, k)|
    ensures j < |rows| && k < |rows[j]| && rows[j][k] == ColumnOf(c, types, limit, k)[j]
  {
    hide CandidatesForType;
    assert |ColumnOf(c, types, limit, k)| <= |rows|;
  }
}
