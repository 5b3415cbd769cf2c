/**
 What `_calls` of `backend/app/parsing/extract.py` records: the sites of a text as functions of the text.
 `Calls` proves that the scanning loops compute them, `CallSafety` and `CallCompleteness` what is true of them.

 A site of the model also carries its kind and four positions, counted in the whole source: `at`, where the construct's
 parenthesis, brace, `=` or argument list stands; `from`, where its argument text begins; `end`, where the scan goes on
 after it; and `limit`, where the text ends that this scan reads: an argument list, an interpolation or the source.
 */
module CallSites {
  import opened Braces
  import opened CommentLexer
  import opened Options
  import opened Texts

  /** The identifier pattern and the keyword sets, as the scanner uses them. */
  datatype Vocabulary = Vocabulary(
    identStart: char -> bool,
    identPart: char -> bool,
    alnum: char -> bool,
    lower: string -> string,
    space: char -> bool,
    nonCall: set<string>,
    declarations: set<string>)

  /** The scan searches the arguments of a `Paren`; it takes the text of the others as it stands. */
  datatype Kind = Paren | New | Brace | Bare | Assign

  datatype CallSite = CallSite(
    name: string, qualified: string, kind: Kind, at: nat, from: nat, end: nat, limit: nat, args: string)

  predicate Recorded(found: seq<CallSite>, at: int) {
    exists m :: 0 <= m < |found| && found[m].at == at
  }

  /** `p` lies in a text that was recorded as it stands and not searched. */
  predicate Hidden(found: seq<CallSite>, p: int) {
    exists m :: 0 <= m < |found| && found[m].kind != Paren && found[m].from <= p < found[m].end
  }

  const BLANKS := " \t"
  const BLANKS_AND_BREAKS := " \t\n"

  // ----- words ----------------------------------------------------------------------------------------------

  /** The first position from `i` on that holds none of `blanks`. */
  function AfterBlanks(source: string, i: nat, blanks: string): (r: nat)
    requires i <= |source|
    ensures i <= r <= |source|
    ensures forall k :: i <= k < r ==> source[k] in blanks
    ensures r < |source| ==> source[r] !in blanks
    decreases |source| - i
  {
    if i < |source| && source[i] in blanks then AfterBlanks(source, i + 1, blanks) else i
  }

  function PartsEnd(v: Vocabulary, source: string, i: nat): (r: nat)
    requires i <= |source|
    ensures i <= r <= |source|
    ensures forall k :: i <= k < r ==> v.identPart(source[k])
    ensures r < |source| ==> !v.identPart(source[r])
    decreases |source| - i
  {
    if i < |source| && v.identPart(source[i]) then PartsEnd(v, source, i + 1) else i
  }

  /** The end of the identifier at `i`, or `i` if there is none. */
  function IdentEnd(v: Vocabulary, source: string, i: nat): (r: nat)
    requires i <= |source|
    ensures i <= r <= |source|
    ensures r > i <==> i < |source| && v.identStart(source[i])
    ensures forall k :: i < k < r ==> v.identPart(source[k])
    ensures i < r < |source| ==> !v.identPart(source[r])
  {
    if i < |source| && v.identStart(source[i]) then PartsEnd(v, source, i + 1) else i
  }

  predicate StartsAt(source: string, i: nat, p: string) {
    i <= |source| && p <= source[i..]
  }

  /** How a member separator is written in a qualified name, and its length in the text. */
  function Separator(source: string, i: nat): (r: Option<(string, nat)>)
    ensures r.Some? ==> 0 < r.value.1 && i + r.value.1 <= |source|
  {
    if StartsAt(source, i, "?.") then Some((".", 2))
    else if StartsAt(source, i, "::") then Some(("::", 2))
    else if StartsAt(source, i, "->") then Some(("->", 2))
    else if StartsAt(source, i, ".") then Some((".", 1))
    else None
  }

  datatype Name = Name(qualified: string, ident: string, end: nat)

  /** The members that follow the name read so far. */
  function MemberChain(v: Vocabulary, source: string, qualified: string, ident: string, j: nat): (name: Name)
    requires j <= |source|
    ensures j <= name.end <= |source|
    decreases |source| - j
  {
    var k := AfterBlanks(source, j, BLANKS_AND_BREAKS);
    match Separator(source, k)
    case None => Name(qualified, ident, k)
    case Some(sep) =>
      var m := AfterBlanks(source, k + sep.1, BLANKS_AND_BREAKS);
      var e := IdentEnd(v, source, m);
      if e == m then Name(qualified, ident, m)
      else MemberChain(v, source, qualified + sep.0 + source[m..e], source[m..e], e)
  }

  predicate IsMember(qualified: string) {
    Contains(qualified, ".") || Contains(qualified, "::") || Contains(qualified, "->")
  }

  function BlanksStart(source: string, k: nat): (r: nat)
    requires k <= |source|
    ensures r <= k
  {
    if k > 0 && source[k - 1] in BLANKS then BlanksStart(source, k - 1) else k
  }

  predicate WordChar(v: Vocabulary, c: char) {
    v.alnum(c) || c in "_$"
  }

  function WordStart(v: Vocabulary, source: string, k: nat): (r: nat)
    requires k <= |source|
    ensures r <= k
  {
    if k > 0 && WordChar(v, source[k - 1]) then WordStart(v, source, k - 1) else k
  }

  /** The word before position `i`. */
  function WordBefore(v: Vocabulary, source: string, i: nat): string
    requires i <= |source|
  {
    var end := BlanksStart(source, i);
    source[WordStart(v, source, end)..end]
  }

  /** The word before the identifier introduces a declaration. */
  predicate Declared(v: Vocabulary, source: string, i: nat)
    requires i <= |source|
  {
    v.lower(WordBefore(v, source, i)) in v.declarations
  }

  /** An absent neighbour counts as one of the characters, as `"" in "=>"` does. */
  predicate IsComparisonOrArrow(source: string, eqAt: nat)
    requires eqAt < |source|
  {
    (eqAt + 1 < |source| ==> source[eqAt + 1] in "=>") || (eqAt > 0 ==> source[eqAt - 1] in "=!<>")
  }

  // ----- argument texts ---------------------------------------------------------------------------------------

  /** The text between the parentheses at `j` and the index after them. */
  function ParenText(source: string, j: nat): (r: (string, nat))
    requires j < |source| && source[j] == '('
    ensures j < r.1 <= |source|
    ensures j + 1 + |r.0| <= r.1 && r.0 == source[j + 1..j + 1 + |r.0|]
  {
    match ClosingParen(source, j, None, false, 0)
    case Some(k) => (source[j + 1..k], k + 1)
    case None => (source[j + 1..], |source|)
  }

  /** The reader of arguments without parentheses; it knows strings and brackets, but no interpolation. */
  datatype Reader = Reader(quote: Option<char>, escape: bool, depth: nat)

  function Read(r: Reader, c: char): Reader {
    if r.quote.Some? then
      if r.escape then r.(escape := false)
      else if c == '\\' then r.(escape := true)
      else if r.quote == Some(c) then r.(quote := None)
      else r
    else if c in QUOTES.delims then r.(quote := Some(c))
    else if c in "([{" then r.(depth := r.depth + 1)
    else if c in ")]}" && r.depth > 0 then r.(depth := r.depth - 1)
    else r
  }

  /** Outside strings and brackets: a closing bracket, a semicolon or the end of the line. */
  predicate Breaks(r: Reader, c: char) {
    r.quote.None? && r.depth == 0 && c in ")]};\n"
  }

  function BreakFrom(source: string, i: nat, r: Reader): (k: nat)
    requires i <= |source|
    ensures i <= k <= |source|
    decreases |source| - i
  {
    if i == |source| || Breaks(r, source[i]) then i else BreakFrom(source, i + 1, Read(r, source[i]))
  }

  function StripLeft(v: Vocabulary, source: string, lo: nat, hi: nat): (r: nat)
    requires lo <= hi <= |source|
    ensures lo <= r <= hi
    decreases hi - lo
  {
    if lo < hi && v.space(source[lo]) then StripLeft(v, source, lo + 1, hi) else lo
  }

  function StripRight(v: Vocabulary, source: string, lo: nat, hi: nat): (r: nat)
    requires lo <= hi <= |source|
    ensures lo <= r <= hi
  {
    if lo < hi && v.space(source[hi - 1]) then StripRight(v, source, lo, hi - 1) else hi
  }

  // ----- sites ------------------------------------------------------------------------------------------------

  /** `name(...)` with its parenthesis at `j`. */
  function ParenSite(source: string, base: nat, name: string, qualified: string, j: nat): (r: (CallSite, nat))
    requires j < |source| && source[j] == '('
    ensures j < r.1 <= |source|
    ensures r.0.at == base + j && r.0.kind == Paren
    ensures j + 1 + |r.0.args| <= r.1 && r.0.args == source[j + 1..j + 1 + |r.0.args|]
  {
    var (args, end) := ParenText(source, j);
    (CallSite(name, qualified, Paren, base + j, base + j + 1, base + end, base + |source|, args), end)
  }

  /** `={...}` after a name. */
  function BraceSite(source: string, base: nat, name: string, qualified: string, j: nat): (r: (CallSite, nat))
    requires StartsAt(source, j, "={")
    ensures j + 1 < r.1 <= |source|
  {
    var end := SkipEnd(source, j + 2);
    var args := if end > j + 2 then source[j + 2..end - 1] else "";
    (CallSite(name, qualified, Brace, base + j + 1, base + j + 2, base + end, base + |source|, args), end)
  }

  /** A keyword whose arguments need no parentheses; `None` when there are no arguments. */
  function BareSite(v: Vocabulary, source: string, base: nat, name: string, qualified: string, j: nat): (r: Option<(CallSite, nat)>)
    requires j <= |source|
    ensures r.Some? ==> j < r.value.1 <= |source|
  {
    var begin := AfterBlanks(source, j, BLANKS);
    var end := BreakFrom(source, begin, Reader(None, false, 0));
    var lo := StripLeft(v, source, begin, end);
    var hi := StripRight(v, source, lo, end);
    if lo < hi then
      Some((CallSite(name, qualified, Bare, base + j, base + lo, base + end, base + |source|, source[lo..hi]), end))
    else None
  }

  /** The right-hand side of a property assignment. */
  function AssignSite(v: Vocabulary, source: string, base: nat, name: string, qualified: string, j: nat): (r: (CallSite, nat))
    requires j < |source|
    ensures j < r.1 <= |source|
  {
    var end := BreakFrom(source, j + 1, Reader(None, false, 0));
    var lo := StripLeft(v, source, j + 1, end);
    var hi := StripRight(v, source, lo, end);
    (CallSite(name, qualified, Assign, base + j, base + lo, base + end, base + |source|, source[lo..hi]), end)
  }

  /** `new Name(...)`; its arguments are not searched. */
  function NewSite(v: Vocabulary, source: string, base: nat, i: nat): (r: Option<(CallSite, nat)>)
    requires i <= |source|
    ensures r.Some? ==> i < r.value.1 <= |source|
  {
    var j := AfterBlanks(source, i, BLANKS);
    var e := IdentEnd(v, source, j);
    if e == j then None
    else
      var name := MemberChain(v, source, source[j..e], source[j..e], e);
      var k := AfterBlanks(source, name.end, BLANKS);
      if k < |source| && source[k] == '(' then
        var (site, end) := ParenSite(source, base, name.ident, "new " + name.qualified, k);
        Some((site.(kind := New), end))
      else None
  }

  /** Where the `.` or `?.` of the next call of a chain may stand: on the same line or at the start of the next one. */
  function ChainLink(source: string, i: nat): (r: nat)
    requires i <= |source|
    ensures i <= r <= |source|
  {
    var j := AfterBlanks(source, i, BLANKS);
    if j < |source| && source[j] == '\n' then
      var peek := AfterBlanks(source, j + 1, BLANKS);
      if StartsAt(source, peek, ".") || StartsAt(source, peek, "?.") then peek else j
    else j
  }

  /** `.next(` or `?.next(` after a call: the name's range and the position of the parenthesis. */
  function NextLink(v: Vocabulary, source: string, i: nat): (r: Option<(nat, nat, nat)>)
    requires i <= |source|
    ensures r.Some? ==> i < r.value.0 < r.value.1 <= r.value.2 < |source| && source[r.value.2] == '('
  {
    var dot := ChainLink(source, i);
    var dots := if StartsAt(source, dot, "?.") then 2 else if StartsAt(source, dot, ".") then 1 else 0;
    if dots == 0 then None
    else
      var m := AfterBlanks(source, dot + dots, BLANKS);
      var e := IdentEnd(v, source, m);
      var k := AfterBlanks(source, e, BLANKS);
      if m < e && k < |source| && source[k] == '(' then Some((m, e, k)) else None
  }

  /** The sites of a text: those the scan records from its beginning. */
  function CallsOf(v: Vocabulary, source: string, base: nat, bare: set<string>): seq<CallSite>
    decreases |source|, 4, 0
  {
    ScanFrom(v, source, base, 0, None, false, bare)
  }

  /** `_calls_from_args`. */
  function ArgCalls(v: Vocabulary, args: string, base: nat, bare: set<string>): seq<CallSite>
    decreases |args|, 5, 0
  {
    if '(' in args || '=' in args then CallsOf(v, args, base, bare) else []
  }

  /** What the scan records from position `i` on, in code or in a string. */
  function ScanFrom(v: Vocabulary, source: string, base: nat, i: nat, quote: Option<char>, escape: bool, bare: set<string>):
    seq<CallSite>
    requires i <= |source|
    decreases |source|, 3, |source| - i
  {
    if i == |source| then []
    else
      var ch := source[i];
      if quote.Some? then
        if escape then ScanFrom(v, source, base, i + 1, quote, false, bare)
        else if ch == '\\' then ScanFrom(v, source, base, i + 1, quote, true, bare)
        else if quote == Some('`') && Interpolates(source[i..]) then
          CallsOf(v, Inner(source, i + 2), base + i + 2, bare)
          + ScanFrom(v, source, base, SkipEnd(source, i + 2), quote, false, bare)
        else ScanFrom(v, source, base, i + 1, if quote == Some(ch) then None else quote, false, bare)
      else if ch in QUOTES.delims then ScanFrom(v, source, base, i + 1, Some(ch), false, bare)
      else if ch == '\n' || IdentEnd(v, source, i) == i then ScanFrom(v, source, base, i + 1, None, false, bare)
      else
        var (sites, next) := WordSites(v, source, base, i, bare);
        sites + ScanFrom(v, source, base, next, None, false, bare)
  }

  /** The text of an interpolation, without its closing brace. */
  function Inner(source: string, start: nat): (r: string)
    requires start <= |source|
    ensures start + |r| <= SkipEnd(source, start) && r == source[start..start + |r|]
    ensures |r| > 0 ==> start + |r| + 1 == SkipEnd(source, start)
  {
    var end := SkipEnd(source, start);
    if end > start then source[start..end - 1] else ""
  }

  /** The sites the identifier at `i` contributes, and where the scan goes on. */
  function WordSites(v: Vocabulary, source: string, base: nat, i: nat, bare: set<string>): (r: (seq<CallSite>, nat))
    requires i < |source| && v.identStart(source[i])
    ensures i < r.1 <= |source|
    decreases |source|, 2, 0
  {
    var e := IdentEnd(v, source, i);
    var ctor := if source[i..e] == "new" then NewSite(v, source, base, e) else None;
    if ctor.Some? then ([ctor.value.0], ctor.value.1)
    else
      var name := MemberChain(v, source, source[i..e], source[i..e], e);
      var j := AfterBlanks(source, name.end, BLANKS_AND_BREAKS);
      if j < |source| && source[j] == '(' then
        if (v.lower(name.ident) in v.nonCall && !IsMember(name.qualified)) || Declared(v, source, i) then ([], e)
        else
          var (site, end) := ParenSite(source, base, name.ident, name.qualified, j);
          var (chain, next) := ChainSites(v, source, base, end, name.qualified);
          ([site] + ArgCalls(v, site.args, base + j + 1, bare) + chain, next)
      else if StartsAt(source, j, "={") then
        var (site, end) := BraceSite(source, base, name.ident, name.qualified, j);
        ([site], end)
      else
        var unparenthesised :=
          if v.lower(name.ident) in bare then BareSite(v, source, base, name.ident, name.qualified, j) else None;
        if unparenthesised.Some? then ([unparenthesised.value.0], unparenthesised.value.1)
        else if j < |source| && source[j] == '=' && !IsComparisonOrArrow(source, j)
                && (Contains(name.qualified, ".") || Contains(name.qualified, "::")) then
          var (site, end) := AssignSite(v, source, base, name.ident, name.qualified, j);
          ([site], end)
        else ([], e)
  }

  /** The calls chained to the call that ends at `i`. */
  function ChainSites(v: Vocabulary, source: string, base: nat, i: nat, qualified: string): (r: (seq<CallSite>, nat))
    requires i <= |source|
    ensures i <= r.1 <= |source|
    decreases |source|, 1, |source| - i
  {
    match NextLink(v, source, i)
    case None => ([], i)
    case Some((m, e, j)) =>
      var ident := source[m..e];
      var (site, end) := ParenSite(source, base, ident, qualified + "()." + ident, j);
      var (rest, next) := ChainSites(v, source, base, end, site.qualified);
      ([site] + ArgCalls(v, site.args, base + j + 1, {}) + rest, next)
  }
}
