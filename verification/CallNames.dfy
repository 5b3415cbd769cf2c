/**
 The names under which sites are recorded, read off the text: the last word before the site, and the text of the chain of
 words that leads to it, without blanks and with `?.` written `.`.
 */
module CallNames {
  import opened CallCompleteness
  import opened CallSites
  import opened CallSteps
  import opened CallTexts
  import opened CodePositions
  import opened CommentLexer
  import opened Braces
  import opened Options
  import opened Texts

  const SEPARATORS := {".", "?.", "::", "->"}

  function Without(t: string, drop: string): string {
    if t == "" then "" else (if t[0] in drop then "" else [t[0]]) + Without(t[1..], drop)
  }

  /** A word begins at `a`: no word that begins earlier reaches over it. */
  predicate WordAt(v: Vocabulary, source: string, a: nat) {
    a < |source| && v.identStart(source[a]) && forall p :: 0 <= p < a ==> IdentEnd(v, source, p) <= a
  }

  predicate AllIn(source: string, i: nat, j: nat, blanks: string) {
    i <= j <= |source| && forall p :: i <= p < j ==> source[p] in blanks
  }

  predicate SeparatorAt(source: string, i: nat, r: nat, sep: string, j: nat) {
    && i <= r && r + |sep| <= j <= |source| && sep in SEPARATORS && source[r..r + |sep|] == sep
    && AllIn(source, i, r, " \t\n") && AllIn(source, r + |sep|, j, " \t\n")
  }

  /** One separator stands between `i` and `j`, blanks and line breaks aside. */
  ghost predicate Joined(source: string, i: nat, j: nat) {
    exists r: nat, sep :: SeparatorAt(source, i, r, sep, j)
  }

  /** The words at `words` are joined to one another, and behind the last comes position `k`, blanks and a stray separator aside. */
  ghost predicate Chain(v: Vocabulary, source: string, words: seq<nat>, k: nat) {
    && words != [] && (forall n :: 0 <= n < |words| ==> WordAt(v, source, words[n]))
    && (forall n :: 0 <= n < |words| - 1 ==> Joined(source, IdentEnd(v, source, words[n]), words[n + 1]))
    && k < |source|
    && var e := IdentEnd(v, source, words[|words| - 1]); AllIn(source, e, k, " \t\n") || Joined(source, e, k)
  }

  /** `name` is the last word of the chain and `qualified` all of it. */
  ghost predicate Names(v: Vocabulary, source: string, words: seq<nat>, name: string, qualified: string) {
    && words != [] && words[0] <= words[|words| - 1] && words[|words| - 1] < |source|
    && var e := IdentEnd(v, source, words[|words| - 1]);
       && name == source[words[|words| - 1]..e] && qualified == Without(source[words[0]..e], " \t\n?")
  }

  /** The word at `b` is `new`, and blanks lead from it to `h`. */
  predicate NewBefore(v: Vocabulary, source: string, b: nat, h: nat) {
    WordAt(v, source, b) && b + 3 <= h <= |source| && IdentEnd(v, source, b) == b + 3 && source[b..b + 3] == "new"
    && AllIn(source, b + 3, h, " \t")
  }

  /**
   The chain of a site begins at `h`: on the same line no word is joined to it, but for a declared one before a call;
   and before a call no `new`.
   */
  ghost predicate Leads(v: Vocabulary, source: string, h: nat, call: bool)
    requires h <= |source|
  {
    forall b: nat :: b < h && WordAt(v, source, b) && '\n' !in source[b..h] ==>
      && (Joined(source, IdentEnd(v, source, b), h) ==> call && Declared(v, source, b))
      && (call ==> !NewBefore(v, source, b, h))
  }

  /** Between the end of a call and the dot lie blanks, and at most one line break. */
  predicate LinkBlanks(source: string, i: nat, dot: nat) {
    i <= dot <= |source| && (AllIn(source, i, dot, " \t")
    || exists b: nat :: i <= b < dot && source[b] == '\n' && AllIn(source, i, b, " \t") && AllIn(source, b + 1, dot, " \t"))
  }

  /** `.next(` or `?.next(` behind position `i`. */
  predicate Linked(v: Vocabulary, source: string, i: nat, dot: nat, a: nat, k: nat) {
    && i <= dot < a && WordAt(v, source, a) && IdentEnd(v, source, a) <= k < |source| && source[k] == '('
    && AllIn(source, IdentEnd(v, source, a), k, " \t")
    && LinkBlanks(source, i, dot)
    && var m := if source[dot] == '?' then dot + 2 else dot + 1;
       m <= a && (source[dot..m] == "." || source[dot..m] == "?.") && AllIn(source, m, a, " \t")
  }

  /** The site is chained to a call in `found`. */
  ghost predicate Chained(v: Vocabulary, source: string, base: nat, found: seq<CallSite>, site: CallSite) {
    exists prev, dot, a :: prev in found && ChainedTo(v, source, base, prev, dot, a, site)
  }

  predicate ChainedTo(v: Vocabulary, source: string, base: nat, prev: CallSite, dot: nat, a: nat, site: CallSite) {
    && prev.kind == Paren && base <= prev.end && base <= site.at
    && Linked(v, source, prev.end - base, dot, a, site.at - base)
    && site.name == source[a..IdentEnd(v, source, a)] && site.qualified == prev.qualified + "()." + site.name
  }

  /** Where the name of a site must end: before its parenthesis, its `={`, its `=` or its arguments. */
  function Mark(site: CallSite): int {
    if site.kind == Brace then site.at - 1 else site.at
  }

  /** What stands there, and why it makes a site of this kind. */
  ghost predicate Marked(v: Vocabulary, source: string, bare: set<string>, kind: Kind, words: seq<nat>, name: string,
                         qualified: string, k: nat)
    requires k < |source| && words != [] && words[0] <= |source|
  {
    match kind
    case Paren =>
      && source[k] == '(' && Leads(v, source, words[0], true) && !Declared(v, source, words[0])
      && (v.lower(name) in v.nonCall ==> |words| > 1)
    case New => source[k] == '(' && exists b: nat :: NewBefore(v, source, b, words[0])
    case Brace => k + 2 <= |source| && source[k..k + 2] == "={" && Leads(v, source, words[0], false)
    case Bare => source[k] != '(' && v.lower(name) in bare && Leads(v, source, words[0], false)
    case Assign =>
      && 0 < k && k + 1 < |source| && source[k] == '=' && source[k + 1] !in "=>" && source[k - 1] !in "=!<>"
      && (Contains(qualified, ".") || Contains(qualified, "::")) && Leads(v, source, words[0], false)
  }

  ghost predicate Headed(v: Vocabulary, source: string, base: nat, bare: set<string>, site: CallSite, words: seq<nat>,
                         qualified: string) {
    && 0 <= Mark(site) - base < |source| && Chain(v, source, words, Mark(site) - base)
    && Names(v, source, words, site.name, qualified)
    && site.qualified == (if site.kind == New then "new " else "") + qualified
    && Marked(v, source, bare, site.kind, words, site.name, qualified, Mark(site) - base)
  }

  ghost predicate Named(v: Vocabulary, source: string, base: nat, bare: set<string>, found: seq<CallSite>, site: CallSite) {
    || (site.kind == Paren && Chained(v, source, base, found, site))
    || exists words, qualified :: Headed(v, source, base, bare, site, words, qualified)
  }

  ghost predicate AllNamed(v: Vocabulary, source: string, base: nat, bare: set<string>, found: seq<CallSite>,
                           sites: seq<CallSite>) {
    forall n :: 0 <= n < |sites| ==> Named(v, source, base, bare, found, sites[n])
  }

  // ----- texts without some characters ------------------------------------------------------------------------

  lemma {:induction false} WithoutJoin(s: string, t: string, drop: string)
    ensures Without(s + t, drop) == Without(s, drop) + Without(t, drop)
  {
    if s == "" {
      assert s + t == t;
    } else {
      assert (s + t)[1..] == s[1..] + t;
      WithoutJoin(s[1..], t, drop);
    }
  }

  lemma {:induction false} WithoutNone(t: string, drop: string)
    ensures (forall p :: 0 <= p < |t| ==> t[p] !in drop) ==> Without(t, drop) == t
    ensures (forall p :: 0 <= p < |t| ==> t[p] in drop) ==> Without(t, drop) == ""
  {
    if t != "" {
      WithoutNone(t[1..], drop);
      if forall p :: 0 <= p < |t| ==> t[p] !in drop {
        forall p | 0 <= p < |t[1..]| ensures t[1..][p] !in drop { assert t[p + 1] !in drop; }
      }
      if forall p :: 0 <= p < |t| ==> t[p] in drop {
        forall p | 0 <= p < |t[1..]| ensures t[1..][p] in drop { assert t[p + 1] in drop; }
      }
    }
  }

  lemma WithoutRange(source: string, i: nat, m: nat, j: nat, drop: string)
    requires i <= m <= j <= |source|
    ensures Without(source[i..j], drop) == Without(source[i..m], drop) + Without(source[m..j], drop)
  {
    assert source[i..j] == source[i..m] + source[m..j];
    WithoutJoin(source[i..m], source[m..j], drop);
  }

  // ----- words -------------------------------------------------------------------------------------------------

  /** No word reaches over a character that is no part of one. */
  lemma Bounded(v: Vocabulary, source: string, p: nat, x: nat)
    requires Usual(v) && p <= x < |source| && !v.identPart(source[x])
    ensures IdentEnd(v, source, p) <= x
  {
  }

  lemma WordBehindMark(v: Vocabulary, source: string, a: nat)
    requires Usual(v) && 0 < a < |source| && v.identStart(source[a]) && !v.identPart(source[a - 1])
    ensures WordAt(v, source, a)
  {
    hide IdentEnd;
    forall p | 0 <= p < a ensures IdentEnd(v, source, p) <= a { Bounded(v, source, p, a - 1); }
  }

  lemma PartIsNoMark(v: Vocabulary, c: char)
    requires Usual(v) && v.identPart(c)
    ensures c !in " \t\n?.:->"
  {
    assert c !in MARKS;
  }

  lemma WordText(v: Vocabulary, source: string, a: nat)
    requires Usual(v) && WordAt(v, source, a)
    ensures a < |source| && v.identStart(source[a])
    ensures var e := IdentEnd(v, source, a);
            a < e <= |source| && (forall p :: a <= p < e ==> v.identPart(source[p]))
            && Without(source[a..e], " \t\n?") == source[a..e]
  {
    var e := IdentEnd(v, source, a);
    forall p | 0 <= p < e - a ensures source[a..e][p] !in " \t\n?" { PartIsNoMark(v, source[a + p]); }
    WithoutNone(source[a..e], " \t\n?");
  }

  /** How a separator is written in a qualified name. */
  function Written(sep: string): string {
    if sep == "?." then "." else sep
  }

  lemma StartsIs(source: string, r: nat, p: string)
    ensures StartsAt(source, r, p) <==> r + |p| <= |source| && source[r..r + |p|] == p
    ensures StartsAt(source, r, p) && p != "" ==> source[r] == p[0]
  {
    if r + |p| <= |source| { assert source[r..r + |p|] == source[r..][..|p|]; }
  }

  lemma SeparatorIs(source: string, r: nat, sep: string)
    requires sep in SEPARATORS && r + |sep| <= |source| && source[r..r + |sep|] == sep
    ensures 0 < |sep| <= 2 && source[r] == sep[0] && source[r] !in BLANKS_AND_BREAKS
    ensures Separator(source, r) == Some((Written(sep), |sep|))
    ensures forall p :: r <= p < r + |sep| ==> source[p] in "?.:->"
    ensures Without(sep, " \t\n?") == Written(sep)
  {
    hide StartsAt, Without;
    StartsIs(source, r, "?.");
    StartsIs(source, r, "::");
    StartsIs(source, r, "->");
    StartsIs(source, r, ".");
    WithoutSeparator(sep);
    assert source[r] == sep[0];
    assert |sep| == 2 ==> source[r + 1] == sep[1];
  }

  lemma WithoutSeparator(sep: string)
    requires sep in SEPARATORS
    ensures Without(sep, " \t\n?") == Written(sep)
  {
    hide Without;
    if sep == "?." {
      assert sep == "?" + ".";
      WithoutJoin("?", ".", " \t\n?");
      WithoutNone("?", " \t\n?");
      WithoutNone(".", " \t\n?");
    } else {
      WithoutNone(sep, " \t\n?");
    }
  }

  lemma SeparatorText(source: string, r: nat) returns (sep: string)
    requires Separator(source, r).Some?
    ensures sep in SEPARATORS && r + |sep| <= |source| && source[r..r + |sep|] == sep
    ensures Separator(source, r) == Some((Written(sep), |sep|))
  {
    hide StartsAt;
    sep := if StartsAt(source, r, "?.") then "?." else if StartsAt(source, r, "::") then "::"
           else if StartsAt(source, r, "->") then "->" else ".";
    StartsIs(source, r, sep);
  }

  /** Characters between joined words. */
  lemma JoinedChars(source: string, i: nat, j: nat)
    requires Joined(source, i, j)
    ensures i < j <= |source| && forall p :: i <= p < j ==> source[p] in " \t\n?.:->"
  {
    var r: nat, sep :| SeparatorAt(source, i, r, sep, j);
    SeparatorIs(source, r, sep);
  }

  /** What the chain reads next, in terms of the text. */
  lemma PartText(v: Vocabulary, source: string, j: nat)
    requires Usual(v) && j <= |source|
    ensures var part := NextPart(v, source, j);
            if part.Last? then AllIn(source, j, part.next, " \t\n") || Joined(source, j, part.next)
            else
              var n := part.next - |part.word|;
              && j < n < part.next && WordAt(v, source, n) && IdentEnd(v, source, n) == part.next
              && part.word == source[n..part.next] && Joined(source, j, n) && part.sep == Without(source[j..n], " \t\n?")
  {
    hide *;
    NextPartIs(v, source, j);
    var r := AfterBlanks(source, j, BLANKS_AND_BREAKS);
    AllBlank(source, j);
    if Separator(source, r).Some? {
      var sep := SeparatorText(source, r);
      SeparatorIs(source, r, sep);
      AllBlank(source, r + |sep|);
      var n := AfterBlanks(source, r + |sep|, BLANKS_AND_BREAKS);
      JoinedBy(source, j, r, sep, n);
      if NextPart(v, source, j).Member? {
        BehindSeparator(v, source, r + |sep|, n);
        WithoutGap(source, j, r, sep, n);
      }
    }
  }

  lemma AllBlank(source: string, i: nat)
    requires i <= |source|
    ensures AllIn(source, i, AfterBlanks(source, i, BLANKS_AND_BREAKS), " \t\n")
    ensures AllIn(source, i, AfterBlanks(source, i, BLANKS), " \t")
  {
    hide AfterBlanks;
  }

  lemma JoinedBy(source: string, j: nat, r: nat, sep: string, n: nat)
    requires j <= r && r + |sep| <= n <= |source| && sep in SEPARATORS && source[r..r + |sep|] == sep
    requires AllIn(source, j, r, " \t\n") && AllIn(source, r + |sep|, n, " \t\n")
    ensures SeparatorAt(source, j, r, sep, n) && Joined(source, j, n)
  {
    hide AllIn;
    assert SeparatorAt(source, j, r, sep, n);
  }

  lemma BehindSeparator(v: Vocabulary, source: string, m: nat, n: nat)
    requires Usual(v) && 0 < m <= n <= |source| && n < IdentEnd(v, source, n) && source[m - 1] in "?.:->"
    requires AllIn(source, m, n, " \t\n")
    ensures WordAt(v, source, n)
  {
    assert source[n - 1] in MARKS;
    WordBehindMark(v, source, n);
  }

  lemma WithoutGap(source: string, j: nat, r: nat, sep: string, n: nat)
    requires SeparatorAt(source, j, r, sep, n)
    ensures Without(source[j..n], " \t\n?") == Written(sep)
  {
    hide Without, AllIn;
    WithoutSeparator(sep);
    WithoutRange(source, j, r, n, " \t\n?");
    WithoutRange(source, r, r + |sep|, n, " \t\n?");
    WithoutBlanks(source, j, r);
    WithoutBlanks(source, r + |sep|, n);
  }

  lemma WithoutBlanks(source: string, i: nat, j: nat)
    requires AllIn(source, i, j, " \t\n")
    ensures i <= j <= |source| && Without(source[i..j], " \t\n?") == ""
  {
    hide Without;
    var t := source[i..j];
    forall p | 0 <= p < |t| ensures t[p] in " \t\n?" { assert t[p] == source[i + p]; }
    WithoutNone(t, " \t\n?");
  }

  // ----- chains ------------------------------------------------------------------------------------------------

  /** The words so far, joined; the last ends at `j`. */
  ghost predicate WordsTo(v: Vocabulary, source: string, words: seq<nat>, j: nat) {
    && words != [] && (forall n :: 0 <= n < |words| ==> WordAt(v, source, words[n]))
    && (forall n :: 0 <= n < |words| - 1 ==> Joined(source, IdentEnd(v, source, words[n]), words[n + 1]))
    && words[0] <= words[|words| - 1] && IdentEnd(v, source, words[|words| - 1]) == j
  }

  /** The name read is the last word and the chain, and behind it lie blanks and at most one separator. */
  lemma {:induction false} ChainWords(v: Vocabulary, source: string, q: string, id: string, j: nat, words: seq<nat>)
    returns (all: seq<nat>)
    requires Usual(v) && j <= |source| && WordsTo(v, source, words, j) && Names(v, source, words, id, q)
    ensures var name := MemberChain(v, source, q, id, j);
            && all != [] && words[0] == all[0] && |words| <= |all| && (|all| == |words| ==> name.qualified == q)
            && (forall n :: 0 <= n < |all| ==> WordAt(v, source, all[n]))
            && var e := IdentEnd(v, source, all[|all| - 1]);
               WordsTo(v, source, all, e) && Names(v, source, all, name.ident, name.qualified)
               && (AllIn(source, e, name.end, " \t\n") || Joined(source, e, name.end))
    decreases |source| - j
  {
    hide *;
    ChainStep(v, source, q, id, j);
    PartText(v, source, j);
    WordsBound(v, source, words, j);
    var part := NextPart(v, source, j);
    if part.Last? {
      all := words;
    } else {
      var n := part.next - |part.word|;
      MoreWords(v, source, q, id, words, j, n);
      all := ChainWords(v, source, q + part.sep + part.word, part.word, part.next, words + [n]);
    }
  }

  lemma WordsBound(v: Vocabulary, source: string, words: seq<nat>, j: nat)
    requires WordsTo(v, source, words, j)
    ensures words != [] && words[|words| - 1] <= |source| && IdentEnd(v, source, words[|words| - 1]) == j
    ensures forall n :: 0 <= n < |words| ==> WordAt(v, source, words[n])
  {
    hide IdentEnd, Joined;
  }

  lemma MoreWords(v: Vocabulary, source: string, q: string, id: string, words: seq<nat>, j: nat, n: nat)
    requires Usual(v) && WordsTo(v, source, words, j) && Names(v, source, words, id, q)
    requires j <= n <= |source| && WordAt(v, source, n) && Joined(source, j, n)
    ensures var e := IdentEnd(v, source, n);
            && j <= n <= e <= |source| && WordsTo(v, source, words + [n], e)
            && Names(v, source, words + [n], source[n..e], q + Without(source[j..n], " \t\n?") + source[n..e])
  {
    hide IdentEnd, Without, WordAt, Usual, Joined;
    var e := IdentEnd(v, source, n);
    JoinedChars(source, j, n);
    WordText(v, source, n);
    var last := words[|words| - 1];
    assert WordAt(v, source, last);
    WordText(v, source, last);
    MoreJoined(v, source, words, j, n);
    WithoutRange(source, words[0], j, e, " \t\n?");
    WithoutRange(source, j, n, e, " \t\n?");
  }

  lemma MoreJoined(v: Vocabulary, source: string, words: seq<nat>, j: nat, n: nat)
    requires WordsTo(v, source, words, j) && j <= n && WordAt(v, source, n) && Joined(source, j, n)
    ensures var all := words + [n];
            && (forall k :: 0 <= k < |all| ==> WordAt(v, source, all[k]))
            && (forall k :: 0 <= k < |all| - 1 ==> Joined(source, IdentEnd(v, source, all[k]), all[k + 1]))
  {
    hide IdentEnd, Joined;
    var all := words + [n];
    forall k | 0 <= k < |all| ensures WordAt(v, source, all[k]) { if k < |words| { assert all[k] == words[k]; } }
    forall k | 0 <= k < |all| - 1 ensures Joined(source, IdentEnd(v, source, all[k]), all[k + 1]) {
      assert all[k] == words[k];
      if k < |words| - 1 { assert all[k + 1] == words[k + 1]; }
    }
  }

  // ----- where a chain begins ------------------------------------------------------------------------------------

  /** The branch that reads the word at `h` would record a site under a name that does not begin there. */
  ghost predicate Clash(v: Vocabulary, source: string, bare: set<string>, b: nat, h: nat) {
    && b < h && WordAt(v, source, b) && WordAt(v, source, h) && '\n' !in source[b..h]
    && var branch := BranchAt(v, source, h, bare);
       || (Joined(source, IdentEnd(v, source, b), h)
           && (branch in {BraceBranch, BareBranch, AssignBranch} || (branch == CallBranch && !Declared(v, source, b))))
       || (branch == CallBranch && NewBefore(v, source, b, h))
  }

  /** At `i` the scan is in no word, and no word before `i` is part of a name behind it. */
  ghost predicate Clean(v: Vocabulary, source: string, bare: set<string>, i: nat) {
    && (forall p :: 0 <= p < i && p <= |source| ==> IdentEnd(v, source, p) <= i)
    && forall b: nat, h: nat :: b < i <= h ==> !Clash(v, source, bare, b, h)
  }

  lemma CleanAtStart(v: Vocabulary, source: string, bare: set<string>)
    ensures Clean(v, source, bare, 0)
  {
    hide Clash, IdentEnd;
  }

  lemma CleanStep(v: Vocabulary, source: string, bare: set<string>, i: nat)
    requires i < |source| && IdentEnd(v, source, i) == i && Clean(v, source, bare, i)
    ensures Clean(v, source, bare, i + 1)
  {
    hide IdentEnd, BranchAt, Declared, Joined, NewBefore;
    forall b: nat, h: nat | b < i + 1 <= h ensures !Clash(v, source, bare, b, h) {
      if b == i { NoWordHere(v, source, i); }
    }
  }

  lemma NoWordHere(v: Vocabulary, source: string, i: nat)
    requires i < |source| && IdentEnd(v, source, i) == i
    ensures !WordAt(v, source, i)
  {
  }

  /** Behind a quote, a bracket or a break the scan is not inside a name. */
  lemma CleanBehind(v: Vocabulary, source: string, bare: set<string>, x: nat, next: nat)
    requires Usual(v) && x < |source| && source[x] in "\"'`)]};\n" && x <= next <= x + 1
    ensures Clean(v, source, bare, next)
  {
    hide *;
    StopIsMark(v, source[x]);
    forall p | 0 <= p < next && p <= |source| ensures IdentEnd(v, source, p) <= next { Bounded(v, source, p, x); }
    forall b: nat, h: nat | b < next <= h ensures !Clash(v, source, bare, b, h) { NoClash(v, source, bare, b, h, x); }
    CleanIs(v, source, bare, next);
  }

  lemma CleanIs(v: Vocabulary, source: string, bare: set<string>, i: nat)
    requires forall p :: 0 <= p < i && p <= |source| ==> IdentEnd(v, source, p) <= i
    requires forall b: nat, h: nat :: b < i <= h ==> !Clash(v, source, bare, b, h)
    ensures Clean(v, source, bare, i)
  {
    hide IdentEnd, Clash;
  }

  lemma StopIsMark(v: Vocabulary, c: char)
    requires Usual(v) && c in "\"'`)]};\n"
    ensures !v.identPart(c) && !v.identStart(c) && c !in " \t?.:->"
  {
    assert c in MARKS;
  }

  lemma NoClash(v: Vocabulary, source: string, bare: set<string>, b: nat, h: nat, x: nat)
    requires Usual(v) && b <= x + 1 && x <= h && x < |source| && source[x] in "\"'`)]};\n" && (b == x + 1 ==> h == b)
    ensures !Clash(v, source, bare, b, h)
  {
    hide IdentEnd, BranchAt, Declared, Joined, Usual;
    StopIsMark(v, source[x]);
    if b < h && WordAt(v, source, b) && WordAt(v, source, h) && '\n' !in source[b..h] {
      Bounded(v, source, b, x);
      assert source[x] == source[b..h][x - b];
      if Joined(source, IdentEnd(v, source, b), h) { JoinedChars(source, IdentEnd(v, source, b), h); }
    }
  }

  lemma CleanStopped(v: Vocabulary, source: string, bare: set<string>, next: nat)
    requires Usual(v) && next <= |source| && Stopped(source, next)
    ensures Clean(v, source, bare, next)
  {
    hide IdentEnd, Clash;
    if next < |source| {
      CleanBehind(v, source, bare, if source[next - 1] in ")}" then next - 1 else next, next);
    } else {
      forall b: nat, h: nat | b < next <= h ensures !Clash(v, source, bare, b, h) { NoClashAtEnd(v, source, bare, b, h); }
    }
  }

  lemma NoClashAtEnd(v: Vocabulary, source: string, bare: set<string>, b: nat, h: nat)
    requires h >= |source|
    ensures !Clash(v, source, bare, b, h)
  {
  }

  // ----- a word without a branch -----------------------------------------------------------------------------------

  lemma {:induction false} NameTail(v: Vocabulary, source: string, p: string, q: string, id: string, j: nat)
    requires j <= |source|
    ensures var tail := MemberChain(v, source, q, id, j);
            MemberChain(v, source, p + q, id, j) == Name(p + tail.qualified, tail.ident, tail.end)
    decreases |source| - j
  {
    hide *;
    ChainStep(v, source, p + q, id, j);
    ChainStep(v, source, q, id, j);
    var part := NextPart(v, source, j);
    if part.Member? {
      assert p + q + part.sep + part.word == p + (q + part.sep + part.word);
      NameTail(v, source, p, q + part.sep + part.word, part.word, part.next);
    }
  }

  lemma JoinedPart(v: Vocabulary, source: string, j: nat, h: nat) returns (sep: string)
    requires Usual(v) && WordAt(v, source, h) && Joined(source, j, h)
    ensures j <= |source| && sep in SEPARATORS && h <= |source|
    ensures NextPart(v, source, j) == Member(Written(sep), source[h..IdentEnd(v, source, h)], IdentEnd(v, source, h))
  {
    hide *;
    var r: nat;
    r, sep := SeparatorOf(source, j, h);
    SeparatorIs(source, r, sep);
    SkipsOver(source, j, r);
    WordText(v, source, h);
    StartIsNoBlank(v, source[h]);
    SkipsOver(source, r + |sep|, h);
    NextPartIs(v, source, j);
  }

  lemma SeparatorOf(source: string, j: nat, h: nat) returns (r: nat, sep: string)
    requires Joined(source, j, h)
    ensures j <= r && r + |sep| <= h <= |source| && sep in SEPARATORS && source[r..r + |sep|] == sep
    ensures AllIn(source, j, r, " \t\n") && AllIn(source, r + |sep|, h, " \t\n")
  {
    hide AllIn;
    r, sep :| SeparatorAt(source, j, r, sep, h);
  }

  lemma SkipsOver(source: string, i: nat, k: nat)
    requires AllIn(source, i, k, " \t\n") && k < |source| && source[k] !in BLANKS_AND_BREAKS
    ensures AfterBlanks(source, i, BLANKS_AND_BREAKS) == k
  {
    BlanksUpTo(source, i, k);
  }

  lemma StartIsNoBlank(v: Vocabulary, c: char)
    requires Usual(v) && v.identStart(c)
    ensures c !in BLANKS_AND_BREAKS && c !in BLANKS && c != '('
  {
    assert c !in MARKS;
  }

  /** A word joined to a name heads a longer name that ends with it. */
  lemma JoinedNames(v: Vocabulary, source: string, b: nat, h: nat) returns (before: string, sep: string)
    requires Usual(v) && WordAt(v, source, b) && WordAt(v, source, h) && Joined(source, IdentEnd(v, source, b), h)
    ensures sep in SEPARATORS && h < |source| && b < |source|
    ensures NameAt(v, source, b) ==
            Name(before + Written(sep) + NameAt(v, source, h).qualified, NameAt(v, source, h).ident, NameAt(v, source, h).end)
  {
    hide IdentEnd, Joined, MemberChain, NextPart;
    var e, eh := IdentEnd(v, source, b), IdentEnd(v, source, h);
    sep := JoinedPart(v, source, e, h);
    before := source[b..e];
    var word := source[h..eh];
    NameIs(v, source, b);
    NameIs(v, source, h);
    ChainStep(v, source, before, before, e);
    NameTail(v, source, before + Written(sep), word, word, eh);
  }

  lemma ContainsBehind(p: string, q: string, t: string)
    requires Contains(q, t)
    ensures Contains(p + q, t)
  {
    var k :| 0 <= k <= |q| && t <= q[k..];
    assert (p + q)[|p| + k..] == q[k..];
  }

  lemma ContainsBefore(p: string, t: string, q: string)
    ensures Contains(p + t + q, t)
  {
    assert (p + t + q)[|p|..] == t + q;
  }

  lemma LongerIsMember(before: string, sep: string, q: string)
    requires sep in SEPARATORS
    ensures IsMember(before + Written(sep) + q)
    ensures Contains(q, ".") ==> Contains(before + Written(sep) + q, ".")
    ensures Contains(q, "::") ==> Contains(before + Written(sep) + q, "::")
  {
    hide Contains;
    ContainsBefore(before, Written(sep), q);
    if Contains(q, ".") { ContainsBehind(before + Written(sep), q, "."); }
    if Contains(q, "::") { ContainsBehind(before + Written(sep), q, "::"); }
  }

  lemma BareIgnoresName(v: Vocabulary, source: string, name: string, qualified: string, name': string, qualified': string, j: nat)
    requires j <= |source|
    ensures BareSite(v, source, 0, name, qualified, j).Some? <==> BareSite(v, source, 0, name', qualified', j).Some?
  {
    hide AfterBlanks, BreakFrom, StripLeft, StripRight;
  }

  /** The branches of two names that end together, the first of which is the longer one. */
  lemma BranchOfLonger(v: Vocabulary, source: string, bare: set<string>, b: nat, h: nat, before: string, sep: string)
    requires b < |source| && h < |source| && sep in SEPARATORS && BranchAt(v, source, b, bare) == NoBranch
    requires NameAt(v, source, b) ==
             Name(before + Written(sep) + NameAt(v, source, h).qualified, NameAt(v, source, h).ident, NameAt(v, source, h).end)
    ensures BranchAt(v, source, h, bare) !in {BraceBranch, BareBranch, AssignBranch}
    ensures BranchAt(v, source, h, bare) == CallBranch ==> Declared(v, source, b)
  {
    hide IdentEnd, AfterBlanks, MemberChain, NewSite, Declared, StartsAt, IsMember, BareSite, Contains, NameAt,
      IsComparisonOrArrow, Written;
    var long, short := NameAt(v, source, b), NameAt(v, source, h);
    LongerIsMember(before, sep, short.qualified);
    BareIgnoresName(v, source, long.ident, long.qualified, short.ident, short.qualified,
                    AfterBlanks(source, long.end, BLANKS_AND_BREAKS));
  }

  lemma {:induction false} ChainEndsAtNoBlank(v: Vocabulary, source: string, q: string, id: string, j: nat)
    requires j <= |source|
    ensures var end := MemberChain(v, source, q, id, j).end; end < |source| ==> source[end] !in BLANKS_AND_BREAKS
    decreases |source| - j
  {
    hide MemberChain, IdentEnd, Separator;
    ChainStep(v, source, q, id, j);
    NextPartIs(v, source, j);
    var part := NextPart(v, source, j);
    if part.Member? { ChainEndsAtNoBlank(v, source, q + part.sep + part.word, part.word, part.next); }
  }

  lemma NoBlanksToSkip(source: string, i: nat)
    requires i <= |source| && (i < |source| ==> source[i] !in BLANKS_AND_BREAKS)
    ensures AfterBlanks(source, i, BLANKS_AND_BREAKS) == AfterBlanks(source, i, BLANKS) == i
  {
  }

  /** Behind `new` a call has the branch of the constructor. */
  lemma NewTakesCall(v: Vocabulary, source: string, bare: set<string>, b: nat, h: nat)
    requires Usual(v) && WordAt(v, source, h) && NewBefore(v, source, b, h) && BranchAt(v, source, h, bare) == CallBranch
    ensures b < |source| && BranchAt(v, source, b, bare) == NewBranch
  {
    hide IdentEnd, Declared, StartsAt, IsMember, BareSite, Contains, IsComparisonOrArrow, MemberChain, ParenSite, AfterBlanks;
    var e := IdentEnd(v, source, b);
    StartIsNoBlank(v, source[h]);
    SkipsTo(source, e, h);
    WordText(v, source, h);
    var eh := IdentEnd(v, source, h);
    var name := NameAt(v, source, h);
    ChainEndsAtNoBlank(v, source, source[h..eh], source[h..eh], eh);
    NoBlanksToSkip(source, name.end);
    CallBranchIs(v, source, h, bare);
    assert NewSite(v, source, 0, e).Some?;
  }

  lemma {:induction false} SkipsTo(source: string, i: nat, k: nat)
    requires AllIn(source, i, k, " \t") && k < |source| && source[k] !in BLANKS
    ensures AfterBlanks(source, i, BLANKS) == k
    decreases k - i
  {
    if i < k { SkipsTo(source, i + 1, k); }
  }

  lemma CallBranchIs(v: Vocabulary, source: string, h: nat, bare: set<string>)
    requires h < |source| && BranchAt(v, source, h, bare) == CallBranch
    ensures var name := NameAt(v, source, h);
            var j := AfterBlanks(source, name.end, BLANKS_AND_BREAKS);
            && j < |source| && source[j] == '(' && !Declared(v, source, h)
            && (v.lower(name.ident) in v.nonCall ==> IsMember(name.qualified))
  {
    hide IdentEnd, AfterBlanks, NameAt, NewSite, Declared, StartsAt, IsMember, BareSite, Contains, IsComparisonOrArrow;
  }

  /** A word that records nothing is no part of a name behind it that records something, but for a declared one. */
  lemma CleanPassed(v: Vocabulary, source: string, bare: set<string>, i: nat)
    requires Usual(v) && WordAt(v, source, i) && Clean(v, source, bare, i) && BranchAt(v, source, i, bare) == NoBranch
    ensures Clean(v, source, bare, IdentEnd(v, source, i))
  {
    hide IdentEnd, BranchAt, Clash;
    var e := IdentEnd(v, source, i);
    WordText(v, source, i);
    WordIsBounded(v, source, i);
    forall b: nat, h: nat | b < e <= h ensures !Clash(v, source, bare, b, h) {
      if i < b { InsideNoWord(v, source, i, b, bare, h); }
      if i == b { NoClashPassed(v, source, bare, i, h); }
    }
  }

  lemma WordIsBounded(v: Vocabulary, source: string, i: nat)
    requires i <= |source|
    ensures forall p :: i <= p < IdentEnd(v, source, i) ==> IdentEnd(v, source, p) <= IdentEnd(v, source, i)
    ensures forall p :: 0 <= p < i && IdentEnd(v, source, p) <= i ==> IdentEnd(v, source, p) <= IdentEnd(v, source, i)
  {
  }

  lemma InsideNoWord(v: Vocabulary, source: string, i: nat, b: nat, bare: set<string>, h: nat)
    requires i <= |source| && i < b < IdentEnd(v, source, i)
    ensures !Clash(v, source, bare, b, h)
  {
    hide IdentEnd, BranchAt, Joined, Declared, NewBefore;
  }

  lemma NoClashPassed(v: Vocabulary, source: string, bare: set<string>, b: nat, h: nat)
    requires Usual(v) && WordAt(v, source, b) && BranchAt(v, source, b, bare) == NoBranch
    ensures !Clash(v, source, bare, b, h)
  {
    hide *;
    if Clash(v, source, bare, b, h) {
      ClashIs(v, source, bare, b, h);
      if Joined(source, IdentEnd(v, source, b), h) {
        var before, sep := JoinedNames(v, source, b, h);
        BranchOfLonger(v, source, bare, b, h, before, sep);
      }
      if BranchAt(v, source, h, bare) == CallBranch && NewBefore(v, source, b, h) { NewTakesCall(v, source, bare, b, h); }
      assert false;
    }
  }

  lemma ClashIs(v: Vocabulary, source: string, bare: set<string>, b: nat, h: nat)
    requires Clash(v, source, bare, b, h)
    ensures b < |source| && h < |source| && WordAt(v, source, b) && WordAt(v, source, h)
    ensures var branch := BranchAt(v, source, h, bare);
            || (Joined(source, IdentEnd(v, source, b), h)
                && (branch in {BraceBranch, BareBranch, AssignBranch} || (branch == CallBranch && !Declared(v, source, b))))
            || (branch == CallBranch && NewBefore(v, source, b, h))
  {
    hide IdentEnd, BranchAt, Joined, Declared, NewBefore;
  }

  // ----- pieces of the text ------------------------------------------------------------------------------------------

  /** A piece that begins behind an opening parenthesis or brace. */
  predicate PieceAt(source: string, p: nat, m: nat) {
    0 < p <= m <= |source| && source[p - 1] in "({"
  }

  lemma AllInPiece(source: string, p: nat, m: nat, i: nat, j: nat, blanks: string)
    requires p <= i <= j <= m <= |source|
    ensures AllIn(source[p..m], i - p, j - p, blanks) <==> AllIn(source, i, j, blanks)
  {
    var piece := source[p..m];
    forall q | i <= q < j ensures source[q] == piece[q - p] { }
    if AllIn(piece, i - p, j - p, blanks) {
      forall q | i <= q < j ensures source[q] in blanks { assert piece[q - p] in blanks; }
    }
    if AllIn(source, i, j, blanks) {
      forall q | i - p <= q < j - p ensures piece[q] in blanks { assert source[p + q] in blanks; }
    }
  }

  lemma SeparatorInPieceAt(source: string, p: nat, m: nat, i: nat, r: nat, sep: string, j: nat)
    requires p <= i <= r && r + |sep| <= j <= m <= |source|
    ensures SeparatorAt(source[p..m], i - p, r - p, sep, j - p) <==> SeparatorAt(source, i, r, sep, j)
  {
    hide AllIn;
    AllInPiece(source, p, m, i, r, " \t\n");
    AllInPiece(source, p, m, r + |sep|, j, " \t\n");
    SliceOfSlice(source, p, m, r, r + |sep|);
  }

  lemma JoinedInPiece(source: string, p: nat, m: nat, i: nat, j: nat)
    requires p <= i <= j <= m <= |source|
    ensures Joined(source[p..m], i - p, j - p) <==> Joined(source, i, j)
  {
    hide SeparatorAt;
    if Joined(source[p..m], i - p, j - p) {
      var r: nat, sep :| SeparatorAt(source[p..m], i - p, r, sep, j - p);
      SeparatorBounds(source[p..m], i - p, r, sep, j - p);
      SeparatorInPieceAt(source, p, m, i, p + r, sep, j);
    }
    if Joined(source, i, j) {
      var r: nat, sep :| SeparatorAt(source, i, r, sep, j);
      SeparatorBounds(source, i, r, sep, j);
      SeparatorInPieceAt(source, p, m, i, r, sep, j);
    }
  }

  lemma SeparatorBounds(source: string, i: nat, r: nat, sep: string, j: nat)
    requires SeparatorAt(source, i, r, sep, j)
    ensures i <= r && r + |sep| <= j
  {
    hide AllIn;
  }

  lemma {:induction false} PartsOfPiece(v: Vocabulary, source: string, p: nat, m: nat, i: nat)
    requires p <= i <= m <= |source|
    ensures p + PartsEnd(v, source[p..m], i - p) <= PartsEnd(v, source, i)
    decreases m - i
  {
    if i < m {
      assert source[p..m][i - p] == source[i];
      if v.identPart(source[i]) { PartsOfPiece(v, source, p, m, i + 1); }
    }
  }

  lemma IdentOfPiece(v: Vocabulary, source: string, p: nat, m: nat, i: nat)
    requires p <= i <= m <= |source|
    ensures p + IdentEnd(v, source[p..m], i - p) <= IdentEnd(v, source, i)
    ensures IdentEnd(v, source[p..m], i - p) < m - p ==> p + IdentEnd(v, source[p..m], i - p) == IdentEnd(v, source, i)
    ensures IdentEnd(v, source, i) < m ==> p + IdentEnd(v, source[p..m], i - p) == IdentEnd(v, source, i)
  {
    hide PartsEnd;
    if i < m {
      assert source[p..m][i - p] == source[i];
      if v.identStart(source[i]) {
        PartsOfPiece(v, source, p, m, i + 1);
        if IdentEnd(v, source[p..m], i - p) < m - p { PartsFromPiece(v, source, p, m, i + 1); }
        if IdentEnd(v, source, i) < m { PartsInPiece(v, source, p, m, i + 1); }
      }
    }
  }

  /** Words of the piece are words of the text. */
  lemma WordOfPiece(v: Vocabulary, source: string, p: nat, m: nat, a: nat)
    requires Usual(v) && PieceAt(source, p, m) && WordAt(v, source[p..m], a) && IdentEnd(v, source[p..m], a) < m - p
    ensures WordAt(v, source, p + a) && IdentEnd(v, source, p + a) == p + IdentEnd(v, source[p..m], a)
  {
    hide IdentEnd, Usual;
    IdentOfPiece(v, source, p, m, p + a);
    OpenerIsNoPart(v, source[p - 1]);
    forall q | 0 <= q < p + a ensures IdentEnd(v, source, q) <= p + a {
      if q < p {
        Bounded(v, source, q, p - 1);
      } else {
        IdentOfPiece(v, source, p, m, q);
        assert IdentEnd(v, source[p..m], q - p) <= a;
      }
    }
    assert source[p..m][a] == source[p + a];
  }

  lemma OpenerIsNoPart(v: Vocabulary, c: char)
    requires Usual(v) && c in "({"
    ensures !v.identPart(c) && c !in " \t\n?.:->"
  {
    assert c in MARKS;
  }

  /** Words of the text are words of the piece around them. */
  lemma WordInPieceAt(v: Vocabulary, source: string, p: nat, m: nat, b: nat)
    requires p <= b < m <= |source| && WordAt(v, source, b)
    ensures WordAt(v, source[p..m], b - p)
  {
    hide IdentEnd;
    assert source[p..m][b - p] == source[b];
    forall q | 0 <= q < b - p ensures IdentEnd(v, source[p..m], q) <= b - p {
      IdentOfPiece(v, source, p, m, p + q);
      assert IdentEnd(v, source, p + q) <= b;
    }
  }

  lemma NewInPiece(v: Vocabulary, source: string, p: nat, m: nat, b: nat, h: nat)
    requires Usual(v) && PieceAt(source, p, m) && p <= b && p <= h < m
    ensures NewBefore(v, source[p..m], b - p, h - p) <==> NewBefore(v, source, b, h)
  {
    hide IdentEnd, WordAt, AllIn, Usual;
    if b + 3 <= h {
      SliceOfSlice(source, p, m, b, b + 3);
      AllInPiece(source, p, m, b + 3, h, " \t");
      IdentOfPiece(v, source, p, m, b);
      if NewBefore(v, source, b, h) { WordInPieceAt(v, source, p, m, b); }
      if NewBefore(v, source[p..m], b - p, h - p) { WordOfPiece(v, source, p, m, b - p); }
    }
  }

  /** A name that leads in the piece leads in the text: nothing is joined across the opening parenthesis or brace. */
  lemma LeadsOfPiece(v: Vocabulary, source: string, p: nat, m: nat, h: nat, call: bool)
    requires Usual(v) && PieceAt(source, p, m) && 0 < p <= h < m <= |source| && Leads(v, source[p..m], h - p, call)
    ensures Leads(v, source, h, call)
  {
    hide *;
    LeadsIs(v, source[p..m], h - p, call);
    forall b: nat | b < h && WordAt(v, source, b) && '\n' !in source[b..h]
      ensures b <= |source| && (Joined(source, IdentEnd(v, source, b), h) ==> call && Declared(v, source, b))
      ensures call ==> !NewBefore(v, source, b, h)
    {
      if b < p {
        LeadsAcross(v, source, p, m, b, h);
      } else {
        WordInPieceAt(v, source, p, m, b);
        SliceOfSlice(source, p, m, b, h);
        DeclaredAtPiece(v, source, p, m, b);
        NewInPiece(v, source, p, m, b, h);
        JoinsInPiece(v, source, p, m, b, h);
      }
    }
    LeadsIs(v, source, h, call);
  }

  lemma LeadsIs(v: Vocabulary, source: string, h: nat, call: bool)
    requires h <= |source|
    ensures Leads(v, source, h, call) <==>
      forall b: nat :: b < h && WordAt(v, source, b) && '\n' !in source[b..h] ==>
        && (Joined(source, IdentEnd(v, source, b), h) ==> call && Declared(v, source, b))
        && (call ==> !NewBefore(v, source, b, h))
  {
    hide WordAt, Joined, IdentEnd, Declared, NewBefore;
  }

  lemma LeadsAcross(v: Vocabulary, source: string, p: nat, m: nat, b: nat, h: nat)
    requires Usual(v) && PieceAt(source, p, m) && b < p <= h <= |source|
    ensures b <= |source| && !Joined(source, IdentEnd(v, source, b), h) && !NewBefore(v, source, b, h)
  {
    hide IdentEnd, Joined, Usual;
    OpenerIsNoPart(v, source[p - 1]);
    Bounded(v, source, b, p - 1);
    if Joined(source, IdentEnd(v, source, b), h) { JoinedChars(source, IdentEnd(v, source, b), h); }
  }

  lemma DeclaredAtPiece(v: Vocabulary, source: string, p: nat, m: nat, b: nat)
    requires Usual(v) && PieceAt(source, p, m) && p <= b <= m
    ensures Declared(v, source[p..m], b - p) <==> Declared(v, source, b)
  {
    hide Declared, Usual;
    DeclaredInPiece(v, source, p, m, b);
  }

  lemma JoinsInPiece(v: Vocabulary, source: string, p: nat, m: nat, b: nat, h: nat)
    requires p <= b <= h < m <= |source|
    ensures Joined(source, IdentEnd(v, source, b), h) <==> Joined(source[p..m], IdentEnd(v, source[p..m], b - p), h - p)
  {
    hide IdentEnd, Joined;
    IdentOfPiece(v, source, p, m, b);
    var e := IdentEnd(v, source, b);
    if e <= h {
      JoinedInPiece(source, p, m, e, h);
    } else {
      if Joined(source, e, h) { JoinedChars(source, e, h); }
      var e' := IdentEnd(v, source[p..m], b - p);
      if Joined(source[p..m], e', h - p) { JoinedChars(source[p..m], e', h - p); }
    }
  }

  function Shifted(words: seq<nat>, p: nat): (r: seq<nat>)
    ensures |r| == |words| && forall n :: 0 <= n < |words| ==> r[n] == p + words[n]
  {
    seq(|words|, n requires 0 <= n < |words| => p + words[n])
  }

  lemma ChainOfPiece(v: Vocabulary, source: string, p: nat, m: nat, words: seq<nat>, k: nat)
    requires Usual(v) && PieceAt(source, p, m) && Chain(v, source[p..m], words, k)
    ensures Chain(v, source, Shifted(words, p), p + k) && p + k < m
  {
    hide WordAt, IdentEnd, Usual, Joined, AllIn;
    var piece, all := source[p..m], Shifted(words, p);
    ChainBoundsOf(v, piece, words, k);
    forall n | 0 <= n < |words|
      ensures WordAt(v, source, all[n]) && all[n] <= |source|
      ensures IdentEnd(v, source, all[n]) == p + IdentEnd(v, piece, words[n])
    {
      WordOfPiece(v, source, p, m, words[n]);
    }
    forall n | 0 <= n < |words| - 1 ensures Joined(source, IdentEnd(v, source, all[n]), all[n + 1]) {
      JoinedInPiece(source, p, m, p + IdentEnd(v, piece, words[n]), p + words[n + 1]);
    }
    GapOfPiece(source, p, m, IdentEnd(v, piece, words[|words| - 1]), k);
  }

  lemma GapOfPiece(source: string, p: nat, m: nat, e: nat, k: nat)
    requires e <= k && p + k < m <= |source|
    requires AllIn(source[p..m], e, k, " \t\n") || Joined(source[p..m], e, k)
    ensures AllIn(source, p + e, p + k, " \t\n") || Joined(source, p + e, p + k)
  {
    hide *;
    JoinedInPiece(source, p, m, p + e, p + k);
    AllInPiece(source, p, m, p + e, p + k, " \t\n");
  }

  lemma ChainBoundsOf(v: Vocabulary, source: string, words: seq<nat>, k: nat)
    requires Chain(v, source, words, k)
    ensures k < |source|
    ensures forall n :: 0 <= n < |words| ==> words[n] < |source| && IdentEnd(v, source, words[n]) <= k
    ensures forall n :: 0 <= n < |words| - 1 ==> IdentEnd(v, source, words[n]) <= words[n + 1]
  {
    var last := |words| - 1;
    assert IdentEnd(v, source, words[last]) <= k by {
      hide IdentEnd;
      var e := IdentEnd(v, source, words[last]);
      if Joined(source, e, k) { JoinedChars(source, e, k); }
    }
    ChainRises(v, source, words, k, last);
  }

  lemma {:induction false} ChainRises(v: Vocabulary, source: string, words: seq<nat>, k: nat, n: nat)
    requires Chain(v, source, words, k) && n < |words| && IdentEnd(v, source, words[n]) <= k
    ensures forall i :: 0 <= i <= n ==> words[i] < |source| && IdentEnd(v, source, words[i]) <= k
    ensures forall i :: 0 <= i < n ==> IdentEnd(v, source, words[i]) <= words[i + 1]
    decreases n
  {
    hide IdentEnd, Joined;
    assert WordAt(v, source, words[n]);
    if n > 0 {
      JoinedChars(source, IdentEnd(v, source, words[n - 1]), words[n]);
      assert words[n] <= IdentEnd(v, source, words[n]);
      ChainRises(v, source, words, k, n - 1);
    }
  }

  lemma NamesOfPiece(v: Vocabulary, source: string, p: nat, m: nat, words: seq<nat>, k: nat, name: string, qualified: string)
    requires Usual(v) && PieceAt(source, p, m) && Chain(v, source[p..m], words, k) && Names(v, source[p..m], words, name, qualified)
    ensures Names(v, source, Shifted(words, p), name, qualified)
  {
    hide WordAt, IdentEnd, Usual, Joined, AllIn, Without;
    var piece, last := source[p..m], words[|words| - 1];
    ChainBoundsOf(v, piece, words, k);
    WordOfPiece(v, source, p, m, last);
    var e := p + IdentEnd(v, piece, last);
    SliceOfSlice(source, p, m, p + last, e);
    SliceOfSlice(source, p, m, p + words[0], e);
  }

  lemma MarkedOfPiece(v: Vocabulary, source: string, p: nat, m: nat, bare: set<string>, few: set<string>, kind: Kind,
                      words: seq<nat>, name: string, qualified: string, k: nat)
    requires Usual(v) && PieceAt(source, p, m) && 0 < p <= m <= |source| && k < m - p && words != [] && words[0] < m - p
    requires few <= bare && Marked(v, source[p..m], few, kind, words, name, qualified, k)
    ensures Marked(v, source, bare, kind, Shifted(words, p), name, qualified, p + k)
  {
    hide WordAt, IdentEnd, Usual, Leads, Declared, NewBefore, Contains;
    var piece, h := source[p..m], p + words[0];
    assert piece[k] == source[p + k];
    DeclaredAtPiece(v, source, p, m, h);
    if kind == New {
      var b: nat :| NewBefore(v, piece, b, words[0]);
      NewInPiece(v, source, p, m, p + b, h);
    } else {
      LeadsOfPiece(v, source, p, m, h, kind == Paren);
    }
    if kind == Brace { SliceOfSlice(source, p, m, p + k, p + k + 2); }
    if kind == Assign { assert piece[k + 1] == source[p + k + 1] && piece[k - 1] == source[p + k - 1]; }
  }

  lemma HeadedOfPiece(v: Vocabulary, source: string, base: nat, p: nat, m: nat, bare: set<string>, few: set<string>,
                      site: CallSite, words: seq<nat>, qualified: string)
    requires Usual(v) && PieceAt(source, p, m) && 0 < p <= m <= |source| && few <= bare
    requires Headed(v, source[p..m], base + p, few, site, words, qualified)
    ensures Headed(v, source, base, bare, site, Shifted(words, p), qualified)
  {
    hide Chain, Names, Marked, Usual;
    var k := Mark(site) - base - p;
    ChainOfPiece(v, source, p, m, words, k);
    FirstWord(v, source[p..m], words, k);
    NamesOfPiece(v, source, p, m, words, k, site.name, qualified);
    MarkedOfPiece(v, source, p, m, bare, few, site.kind, words, site.name, qualified, k);
  }

  lemma FirstWord(v: Vocabulary, source: string, words: seq<nat>, k: nat)
    requires Chain(v, source, words, k)
    ensures words != [] && words[0] < |source|
  {
    hide IdentEnd, Joined;
    assert WordAt(v, source, words[0]);
  }

  lemma LinkedOfPiece(v: Vocabulary, source: string, p: nat, m: nat, i: nat, dot: nat, a: nat, k: nat)
    requires Usual(v) && PieceAt(source, p, m) && Linked(v, source[p..m], i, dot, a, k)
    ensures Linked(v, source, p + i, p + dot, p + a, p + k)
  {
    hide WordAt, IdentEnd, Usual, AllIn, LinkBlanks;
    LinkedBounds(v, source[p..m], i, dot, a, k);
    WordOfPiece(v, source, p, m, a);
    LinkedShift(v, source, p, m, p + i, p + dot, p + a, p + k);
  }

  lemma LinkBlanksInPiece(source: string, p: nat, m: nat, i: nat, dot: nat)
    requires p <= i <= dot <= m <= |source|
    ensures LinkBlanks(source[p..m], i - p, dot - p) <==> LinkBlanks(source, i, dot)
  {
    hide AllIn;
    var piece := source[p..m];
    AllInPiece(source, p, m, i, dot, " \t");
    forall b: nat | i <= b < dot
      ensures piece[b - p] == source[b]
      ensures AllIn(piece, i - p, b - p, " \t") <==> AllIn(source, i, b, " \t")
      ensures AllIn(piece, b + 1 - p, dot - p, " \t") <==> AllIn(source, b + 1, dot, " \t")
    {
      AllInPiece(source, p, m, i, b, " \t");
      AllInPiece(source, p, m, b + 1, dot, " \t");
    }
    if b: nat :| i - p <= b < dot - p && piece[b] == '\n' && AllIn(piece, i - p, b, " \t")
                && AllIn(piece, b + 1, dot - p, " \t") {
      assert AllIn(source, i, p + b, " \t") && AllIn(source, p + b + 1, dot, " \t") && source[p + b] == '\n';
    }
  }

  /** Links are read in a piece as in the text. */
  lemma LinkedShift(v: Vocabulary, source: string, p: nat, m: nat, i: nat, dot: nat, a: nat, k: nat)
    requires p <= i <= dot < a < k < m <= |source| && IdentEnd(v, source, a) <= k
    requires WordAt(v, source, a) && WordAt(v, source[p..m], a - p)
    ensures Linked(v, source[p..m], i - p, dot - p, a - p, k - p) <==> Linked(v, source, i, dot, a, k)
  {
    hide WordAt, IdentEnd, AllIn, LinkBlanks;
    var piece := source[p..m];
    assert piece[k - p] == source[k] && piece[dot - p] == source[dot];
    IdentOfPiece(v, source, p, m, a);
    LinkBlanksInPiece(source, p, m, i, dot);
    var n := if source[dot] == '?' then dot + 2 else dot + 1;
    if n <= a {
      SliceOfSlice(source, p, m, dot, n);
      AllInPiece(source, p, m, n, a, " \t");
    }
    AllInPiece(source, p, m, IdentEnd(v, source, a), k, " \t");
  }

  lemma LinkedBounds(v: Vocabulary, source: string, i: nat, dot: nat, a: nat, k: nat)
    requires Linked(v, source, i, dot, a, k)
    ensures i <= dot < a < k < |source| && IdentEnd(v, source, a) <= k
    ensures a < IdentEnd(v, source, a)
  {
    hide AllIn;
  }

  lemma ChainedOfPiece(v: Vocabulary, source: string, base: nat, p: nat, m: nat, prev: CallSite, dot: nat, a: nat, site: CallSite)
    requires Usual(v) && PieceAt(source, p, m) && 0 < p <= m <= |source|
    requires ChainedTo(v, source[p..m], base + p, prev, dot, a, site)
    ensures ChainedTo(v, source, base, prev, p + dot, p + a, site)
  {
    hide Linked, IdentEnd, Usual;
    var i, k := prev.end - base - p, site.at - base - p;
    LinkedOfPiece(v, source, p, m, i, dot, a, k);
    LinkedBounds(v, source[p..m], i, dot, a, k);
    IdentOfPiece(v, source, p, m, p + a);
    SliceOfSlice(source, p, m, p + a, IdentEnd(v, source, p + a));
  }

  /** A site of the piece has its name in the text, too. */
  lemma NamedOfPiece(v: Vocabulary, source: string, base: nat, p: nat, m: nat, bare: set<string>, few: set<string>,
                     found: seq<CallSite>, site: CallSite)
    requires Usual(v) && PieceAt(source, p, m) && 0 < p <= m <= |source| && few <= bare
    requires Named(v, source[p..m], base + p, few, found, site)
    ensures Named(v, source, base, bare, found, site)
  {
    hide ChainedTo, Headed, Usual;
    var piece := source[p..m];
    if site.kind == Paren && Chained(v, piece, base + p, found, site) {
      var prev, dot: nat, a: nat :| prev in found && ChainedTo(v, piece, base + p, prev, dot, a, site);
      ChainedOfPiece(v, source, base, p, m, prev, dot, a, site);
    } else {
      var words, qualified :| Headed(v, piece, base + p, few, site, words, qualified);
      HeadedOfPiece(v, source, base, p, m, bare, few, site, words, qualified);
    }
  }

  // ----- lists of sites ------------------------------------------------------------------------------------------------

  lemma NamedMore(v: Vocabulary, source: string, base: nat, bare: set<string>, found: seq<CallSite>, more: seq<CallSite>,
                  sites: seq<CallSite>)
    requires AllNamed(v, source, base, bare, found, sites) && forall s :: s in found ==> s in more
    ensures AllNamed(v, source, base, bare, more, sites)
  {
    hide Headed, ChainedTo;
  }

  lemma NamedJoin(v: Vocabulary, source: string, base: nat, bare: set<string>, found: seq<CallSite>, f: seq<CallSite>,
                  g: seq<CallSite>)
    requires AllNamed(v, source, base, bare, found, f) && AllNamed(v, source, base, bare, found, g)
    ensures AllNamed(v, source, base, bare, found, f + g)
  {
    hide Named;
  }

  lemma NamedOne(v: Vocabulary, source: string, base: nat, bare: set<string>, found: seq<CallSite>, site: CallSite)
    requires Named(v, source, base, bare, found, site)
    ensures AllNamed(v, source, base, bare, found, [site])
  {
    hide Named;
  }

  lemma NamedNone(v: Vocabulary, source: string, base: nat, bare: set<string>, found: seq<CallSite>)
    ensures AllNamed(v, source, base, bare, found, [])
  {
    hide Named;
  }

  lemma NamedParts(v: Vocabulary, source: string, base: nat, bare: set<string>, f: seq<CallSite>, g: seq<CallSite>)
    requires AllNamed(v, source, base, bare, f, f) && AllNamed(v, source, base, bare, g, g)
    ensures AllNamed(v, source, base, bare, f + g, f + g)
  {
    hide AllNamed;
    NamedMore(v, source, base, bare, f, f + g, f);
    NamedMore(v, source, base, bare, g, f + g, g);
    NamedJoin(v, source, base, bare, f + g, f, g);
  }

  lemma PieceIsNamed(v: Vocabulary, source: string, base: nat, p: nat, m: nat, bare: set<string>, few: set<string>,
                     sites: seq<CallSite>)
    requires Usual(v) && PieceAt(source, p, m) && 0 < p <= m <= |source| && few <= bare
    requires AllNamed(v, source[p..m], base + p, few, sites, sites)
    ensures AllNamed(v, source, base, bare, sites, sites)
  {
    hide Named, Usual, PieceAt;
    forall n | 0 <= n < |sites| ensures Named(v, source, base, bare, sites, sites[n]) {
      NamedOfPiece(v, source, base, p, m, bare, few, sites, sites[n]);
    }
  }

  // ----- single sites ---------------------------------------------------------------------------------------------------

  /** The words of the name at `h`, up to what stands behind it. */
  lemma HeadWords(v: Vocabulary, source: string, h: nat) returns (words: seq<nat>)
    requires Usual(v) && WordAt(v, source, h)
    ensures h < |source| && words != [] && words[0] == h
    ensures var name := NameAt(v, source, h);
            && Names(v, source, words, name.ident, name.qualified)
            && (forall n :: 0 <= n < |words| ==> WordAt(v, source, words[n]))
            && var e := IdentEnd(v, source, words[|words| - 1]);
               WordsTo(v, source, words, e) && (AllIn(source, e, name.end, " \t\n") || Joined(source, e, name.end))
    ensures IsMember(NameAt(v, source, h).qualified) ==> |words| > 1
  {
    hide *;
    WordText(v, source, h);
    NameIs(v, source, h);
    var e := IdentEnd(v, source, h);
    FirstWords(v, source, h);
    words := ChainWords(v, source, source[h..e], source[h..e], e, [h]);
    WordIsNoMember(v, source, h);
  }

  lemma FirstWords(v: Vocabulary, source: string, h: nat)
    requires Usual(v) && WordAt(v, source, h)
    ensures h < |source|
    ensures var e := IdentEnd(v, source, h); WordsTo(v, source, [h], e) && Names(v, source, [h], source[h..e], source[h..e])
  {
    hide IdentEnd, Joined, Without, Usual;
    WordText(v, source, h);
  }

  lemma WordIsNoMember(v: Vocabulary, source: string, h: nat)
    requires Usual(v) && WordAt(v, source, h)
    ensures h < |source| && !IsMember(source[h..IdentEnd(v, source, h)])
  {
    hide IdentEnd, Usual, Without;
    WordText(v, source, h);
    var t := source[h..IdentEnd(v, source, h)];
    forall p | 0 <= p < |t| ensures t[p] !in " \t\n?.:->" { PartIsNoMark(v, t[p]); }
    forall k | 0 <= k <= |t| ensures !("." <= t[k..]) && !("::" <= t[k..]) && !("->" <= t[k..]) {
      if k < |t| { assert t[k..][0] == t[k]; }
    }
  }

  /** Blanks behind the name change nothing. */
  lemma ChainReaches(v: Vocabulary, source: string, words: seq<nat>, end: nat, k: nat)
    requires WordsTo(v, source, words, IdentEnd(v, source, LastOf(source, words))) && end <= k < |source|
    requires var e := IdentEnd(v, source, LastOf(source, words)); AllIn(source, e, end, " \t\n") || Joined(source, e, end)
    requires AllIn(source, end, k, " \t\n")
    ensures Chain(v, source, words, k)
  {
    hide IdentEnd;
    var e := IdentEnd(v, source, LastOf(source, words));
    WordsBound(v, source, words, e);
    if Joined(source, e, end) {
      var r: nat, sep :| SeparatorAt(source, e, r, sep, end);
      assert SeparatorAt(source, e, r, sep, k);
    }
  }

  function LastOf(source: string, words: seq<nat>): (last: nat)
    ensures last <= |source|
  {
    if words != [] && words[|words| - 1] <= |source| then words[|words| - 1] else 0
  }

  lemma LastIs(v: Vocabulary, source: string, words: seq<nat>)
    requires words != [] && forall n :: 0 <= n < |words| ==> WordAt(v, source, words[n])
    ensures LastOf(source, words) == words[|words| - 1]
  {
    assert WordAt(v, source, words[|words| - 1]);
  }

  /** The words of the name at `h`, with the position `k` behind it. */
  lemma WordsBefore(v: Vocabulary, source: string, h: nat, k: nat) returns (words: seq<nat>)
    requires Usual(v) && WordAt(v, source, h) && h < |source| && NameAt(v, source, h).end <= k < |source|
    requires AllIn(source, NameAt(v, source, h).end, k, " \t\n")
    ensures Chain(v, source, words, k) && words != [] && words[0] == h
    ensures Names(v, source, words, NameAt(v, source, h).ident, NameAt(v, source, h).qualified)
    ensures IsMember(NameAt(v, source, h).qualified) ==> |words| > 1
  {
    hide *;
    words := HeadWords(v, source, h);
    LastIs(v, source, words);
    ChainReaches(v, source, words, NameAt(v, source, h).end, k);
  }

  /** The head of a name at which the scan stands leads. */
  lemma LeadsHere(v: Vocabulary, source: string, bare: set<string>, i: nat, call: bool)
    requires i < |source| && WordAt(v, source, i) && Clean(v, source, bare, i)
    requires BranchAt(v, source, i, bare) in if call then {CallBranch} else {BraceBranch, BareBranch, AssignBranch}
    ensures Leads(v, source, i, call)
  {
    hide *;
    forall b: nat | b < i && WordAt(v, source, b) && '\n' !in source[b..i]
      ensures b <= |source| && (Joined(source, IdentEnd(v, source, b), i) ==> call && Declared(v, source, b))
      ensures call ==> !NewBefore(v, source, b, i)
    {
      NotClash(v, source, bare, i, b, call);
    }
    LeadsIs(v, source, i, call);
  }

  lemma NotClash(v: Vocabulary, source: string, bare: set<string>, i: nat, b: nat, call: bool)
    requires i < |source| && WordAt(v, source, i) && Clean(v, source, bare, i)
    requires b < i && WordAt(v, source, b) && '\n' !in source[b..i]
    requires BranchAt(v, source, i, bare) in if call then {CallBranch} else {BraceBranch, BareBranch, AssignBranch}
    ensures Joined(source, IdentEnd(v, source, b), i) ==> call && Declared(v, source, b)
    ensures call ==> !NewBefore(v, source, b, i)
  {
    hide WordAt, IdentEnd, BranchAt, Declared, Joined, NewBefore;
    assert !Clash(v, source, bare, b, i);
  }

  lemma CleanWord(v: Vocabulary, source: string, bare: set<string>, i: nat)
    requires i < |source| && v.identStart(source[i]) && Clean(v, source, bare, i)
    ensures WordAt(v, source, i)
  {
    hide IdentEnd, Clash;
  }

  /** A parenthesised call at the head of its chain. */
  lemma CallIsNamed(v: Vocabulary, source: string, base: nat, i: nat, bare: set<string>)
    requires Usual(v) && WordAt(v, source, i) && Clean(v, source, bare, i)
    requires i < |source| && BranchAt(v, source, i, bare) == CallBranch
    ensures var name := NameAt(v, source, i);
            var j := AfterBlanks(source, name.end, BLANKS_AND_BREAKS);
            && j < |source| && source[j] == '('
            && Named(v, source, base, bare, [], ParenSite(source, base, name.ident, name.qualified, j).0)
  {
    hide *;
    var name := NameAt(v, source, i);
    var j := AfterBlanks(source, name.end, BLANKS_AND_BREAKS);
    CallBranchIs(v, source, i, bare);
    AllBlank(source, name.end);
    LeadsHere(v, source, bare, i, true);
    var words := WordsBefore(v, source, i, j);
    var site := ParenSite(source, base, name.ident, name.qualified, j).0;
    ParenFields(source, base, name.ident, name.qualified, j);
    ParenIsMarked(v, source, bare, words, name.ident, name.qualified, j);
    IsHeaded(v, source, base, bare, site, words, name.qualified, j);
  }

  lemma ParenFields(source: string, base: nat, name: string, qualified: string, j: nat)
    requires j < |source| && source[j] == '('
    ensures var (site, end) := ParenSite(source, base, name, qualified, j);
            site.name == name && site.qualified == qualified && site.kind == Paren && site.at == base + j == Mark(site)
            && site.end == base + end
  {
    hide ParenText;
  }

  lemma ParenIsMarked(v: Vocabulary, source: string, bare: set<string>, words: seq<nat>, name: string, qualified: string, k: nat)
    requires k < |source| && source[k] == '(' && words != [] && words[0] <= |source| && Leads(v, source, words[0], true)
    requires !Declared(v, source, words[0]) && (v.lower(name) in v.nonCall ==> |words| > 1)
    ensures Marked(v, source, bare, Paren, words, name, qualified, k)
  {
    hide Leads, Declared;
  }

  lemma IsHeaded(v: Vocabulary, source: string, base: nat, bare: set<string>, found: CallSite, words: seq<nat>,
                 qualified: string, k: nat)
    requires Chain(v, source, words, k) && Names(v, source, words, found.name, qualified) && Mark(found) == base + k
    requires k < |source| && words != [] && words[0] <= |source|
    requires found.qualified == (if found.kind == New then "new " else "") + qualified
    requires Marked(v, source, bare, found.kind, words, found.name, qualified, k)
    ensures Named(v, source, base, bare, [], found)
  {
    hide Chain, Names, Marked;
    assert Headed(v, source, base, bare, found, words, qualified);
  }

  // ----- the other kinds -------------------------------------------------------------------------------------------------

  lemma OtherBranchIs(v: Vocabulary, source: string, h: nat, bare: set<string>)
    requires h < |source|
    ensures var name := NameAt(v, source, h);
            var j := AfterBlanks(source, name.end, BLANKS_AND_BREAKS);
            var branch := BranchAt(v, source, h, bare);
            && (branch == NewBranch ==> source[h..IdentEnd(v, source, h)] == "new")
            && (branch == BraceBranch ==> StartsAt(source, j, "={"))
            && (branch == BareBranch ==> v.lower(name.ident) in bare && (j < |source| ==> source[j] != '('))
            && (branch == AssignBranch ==> j < |source| && source[j] == '=' && !IsComparisonOrArrow(source, j)
                                           && (Contains(name.qualified, ".") || Contains(name.qualified, "::")))
  {
    hide IdentEnd, AfterBlanks, NameAt, NewSite, Declared, StartsAt, IsMember, BareSite, Contains, IsComparisonOrArrow;
  }

  /** `new Name(...)`. */
  lemma NewIsNamed(v: Vocabulary, source: string, base: nat, i: nat, bare: set<string>)
    requires Usual(v) && WordAt(v, source, i) && i < |source| && BranchAt(v, source, i, bare) == NewBranch
    ensures var e := IdentEnd(v, source, i);
            NewSite(v, source, base, e).Some? && Named(v, source, base, bare, [], NewSite(v, source, base, e).value.0)
  {
    hide *;
    var e := IdentEnd(v, source, i);
    OtherBranchIs(v, source, i, bare);
    NewAnywhere(v, source, base, e);
    WordText(v, source, i);
    var h, k := NewParts(v, source, base, e);
    var words := WordsBefore(v, source, h, k);
    NewBeforeIs(v, source, i, h);
    var name := NameAt(v, source, h);
    NewIsMarked(v, source, bare, words, name.ident, name.qualified, k, i);
    IsHeaded(v, source, base, bare, NewSite(v, source, base, e).value.0, words, name.qualified, k);
  }

  lemma NewIsMarked(v: Vocabulary, source: string, bare: set<string>, words: seq<nat>, name: string, qualified: string,
                    k: nat, b: nat)
    requires k < |source| && source[k] == '(' && words != [] && words[0] <= |source| && NewBefore(v, source, b, words[0])
    ensures Marked(v, source, bare, New, words, name, qualified, k)
  {
    hide NewBefore;
  }

  lemma NewBeforeIs(v: Vocabulary, source: string, b: nat, h: nat)
    requires b < |source| && WordAt(v, source, b) && IdentEnd(v, source, b) <= h <= |source|
    requires source[b..IdentEnd(v, source, b)] == "new" && AllIn(source, IdentEnd(v, source, b), h, " \t")
    ensures NewBefore(v, source, b, h)
  {
    hide WordAt, AllIn, IdentEnd;
    assert |source[b..IdentEnd(v, source, b)]| == 3;
  }

  lemma NewParts(v: Vocabulary, source: string, base: nat, e: nat) returns (h: nat, k: nat)
    requires Usual(v) && 0 < e <= |source| && (e < |source| ==> !v.identPart(source[e])) && NewSite(v, source, base, e).Some?
    ensures e <= h < |source| && AllIn(source, e, h, " \t") && WordAt(v, source, h) && NameAt(v, source, h).end <= k < |source|
    ensures source[k] == '(' && AllIn(source, NameAt(v, source, h).end, k, " \t\n")
    ensures var name := NameAt(v, source, h);
            var site := NewSite(v, source, base, e).value.0;
            && site.name == name.ident && site.qualified == "new " + name.qualified && site.kind == New
            && Mark(site) == base + k
  {
    hide IdentEnd, MemberChain, AfterBlanks, ParenText, Usual, AllIn, WordAt;
    h := AfterBlanks(source, e, BLANKS);
    AllBlank(source, e);
    NewHead(v, source, e, h);
    var name := NameAt(v, source, h);
    k := AfterBlanks(source, name.end, BLANKS);
    AllBlank(source, name.end);
    MoreBlanks(source, name.end, k);
  }

  lemma MoreBlanks(source: string, i: nat, j: nat)
    requires AllIn(source, i, j, " \t")
    ensures AllIn(source, i, j, " \t\n")
  {
  }

  lemma NewHead(v: Vocabulary, source: string, e: nat, h: nat)
    requires Usual(v) && 0 < e <= |source| && (e < |source| ==> !v.identPart(source[e])) && AllIn(source, e, h, " \t")
    ensures IdentEnd(v, source, h) > h ==> h < |source| && WordAt(v, source, h)
  {
    hide IdentEnd;
    if h < |source| && v.identStart(source[h]) {
      BlankIsNoPart(v);
      assert h > e;
      assert source[h - 1] in " \t";
      WordBehindMark(v, source, h);
    }
  }

  lemma BlankIsNoPart(v: Vocabulary)
    requires Usual(v)
    ensures forall c: char :: c in " \t" ==> !v.identPart(c)
  {
    forall c: char | c in " \t" ensures !v.identPart(c) { assert c in MARKS; }
  }

  lemma BraceIsNamed(v: Vocabulary, source: string, base: nat, i: nat, bare: set<string>)
    requires Usual(v) && WordAt(v, source, i) && Clean(v, source, bare, i)
    requires i < |source| && BranchAt(v, source, i, bare) == BraceBranch
    ensures var name := NameAt(v, source, i);
            var j := AfterBlanks(source, name.end, BLANKS_AND_BREAKS);
            StartsAt(source, j, "={") && Named(v, source, base, bare, [], BraceSite(source, base, name.ident, name.qualified, j).0)
  {
    hide *;
    var name := NameAt(v, source, i);
    var j := AfterBlanks(source, name.end, BLANKS_AND_BREAKS);
    OtherBranchIs(v, source, i, bare);
    StartsIs(source, j, "={");
    AllBlank(source, name.end);
    LeadsHere(v, source, bare, i, false);
    var words := WordsBefore(v, source, i, j);
    BraceFields(source, base, name.ident, name.qualified, j);
    BraceIsMarked(v, source, bare, words, name.ident, name.qualified, j);
    IsHeaded(v, source, base, bare, BraceSite(source, base, name.ident, name.qualified, j).0, words, name.qualified, j);
  }

  lemma BraceFields(source: string, base: nat, name: string, qualified: string, j: nat)
    requires StartsAt(source, j, "={")
    ensures var site := BraceSite(source, base, name, qualified, j).0;
            site.name == name && site.qualified == qualified && site.kind == Brace && Mark(site) == base + j
  {
    hide SkipEnd, StartsAt;
  }

  lemma BraceIsMarked(v: Vocabulary, source: string, bare: set<string>, words: seq<nat>, name: string, qualified: string, k: nat)
    requires k + 2 <= |source| && source[k..k + 2] == "={" && words != [] && words[0] <= |source|
    requires Leads(v, source, words[0], false)
    ensures Marked(v, source, bare, Brace, words, name, qualified, k)
  {
    hide Leads;
  }

  lemma BareIsNamed(v: Vocabulary, source: string, base: nat, i: nat, bare: set<string>)
    requires Usual(v) && WordAt(v, source, i) && Clean(v, source, bare, i)
    requires i < |source| && BranchAt(v, source, i, bare) == BareBranch
    ensures var name := NameAt(v, source, i);
            var site := BareSite(v, source, base, name.ident, name.qualified, AfterBlanks(source, name.end, BLANKS_AND_BREAKS));
            site.Some? ==> Named(v, source, base, bare, [], site.value.0)
  {
    hide *;
    var name := NameAt(v, source, i);
    var j := AfterBlanks(source, name.end, BLANKS_AND_BREAKS);
    if BareSite(v, source, base, name.ident, name.qualified, j).Some? {
      OtherBranchIs(v, source, i, bare);
      BareFields(v, source, base, name.ident, name.qualified, j);
      AllBlank(source, name.end);
      LeadsHere(v, source, bare, i, false);
      var words := WordsBefore(v, source, i, j);
      BareIsMarked(v, source, bare, words, name.ident, name.qualified, j);
      IsHeaded(v, source, base, bare, BareSite(v, source, base, name.ident, name.qualified, j).value.0, words,
               name.qualified, j);
    }
  }

  lemma BareFields(v: Vocabulary, source: string, base: nat, name: string, qualified: string, j: nat)
    requires j <= |source| && BareSite(v, source, base, name, qualified, j).Some?
    ensures var site := BareSite(v, source, base, name, qualified, j).value.0;
            && site.name == name && site.qualified == qualified && site.kind == Bare && Mark(site) == base + j && j < |source|
  {
    hide AfterBlanks, BreakFrom, StripLeft, StripRight;
  }

  lemma BareIsMarked(v: Vocabulary, source: string, bare: set<string>, words: seq<nat>, name: string, qualified: string, k: nat)
    requires k < |source| && source[k] != '(' && v.lower(name) in bare && words != [] && words[0] <= |source|
    requires Leads(v, source, words[0], false)
    ensures Marked(v, source, bare, Bare, words, name, qualified, k)
  {
    hide Leads;
  }

  lemma AssignIsNamed(v: Vocabulary, source: string, base: nat, i: nat, bare: set<string>)
    requires Usual(v) && WordAt(v, source, i) && Clean(v, source, bare, i)
    requires i < |source| && BranchAt(v, source, i, bare) == AssignBranch
    ensures var name := NameAt(v, source, i);
            var j := AfterBlanks(source, name.end, BLANKS_AND_BREAKS);
            j < |source| && Named(v, source, base, bare, [], AssignSite(v, source, base, name.ident, name.qualified, j).0)
  {
    hide *;
    var name := NameAt(v, source, i);
    var j := AfterBlanks(source, name.end, BLANKS_AND_BREAKS);
    OtherBranchIs(v, source, i, bare);
    AllBlank(source, name.end);
    LeadsHere(v, source, bare, i, false);
    WordText(v, source, i);
    NameEndsBehind(v, source, i);
    var words := WordsBefore(v, source, i, j);
    AssignFields(v, source, base, name.ident, name.qualified, j);
    AssignIsMarked(v, source, bare, words, name.ident, name.qualified, j);
    IsHeaded(v, source, base, bare, AssignSite(v, source, base, name.ident, name.qualified, j).0, words, name.qualified, j);
  }

  lemma NameEndsBehind(v: Vocabulary, source: string, i: nat)
    requires i < |source| && v.identStart(source[i])
    ensures NameAt(v, source, i).end > i
  {
    hide MemberChain;
  }

  lemma AssignFields(v: Vocabulary, source: string, base: nat, name: string, qualified: string, j: nat)
    requires j < |source|
    ensures var site := AssignSite(v, source, base, name, qualified, j).0;
            site.name == name && site.qualified == qualified && site.kind == Assign && Mark(site) == base + j
  {
    hide BreakFrom, StripLeft, StripRight;
  }

  lemma AssignIsMarked(v: Vocabulary, source: string, bare: set<string>, words: seq<nat>, name: string, qualified: string, k: nat)
    requires 0 < k < |source| && source[k] == '=' && !IsComparisonOrArrow(source, k)
    requires Contains(qualified, ".") || Contains(qualified, "::")
    requires words != [] && words[0] <= |source| && Leads(v, source, words[0], false)
    ensures Marked(v, source, bare, Assign, words, name, qualified, k)
  {
    hide Leads, Contains;
  }

  // ----- the scan ----------------------------------------------------------------------------------------------------------

  /** The next link of a chain, read off the text. */
  lemma LinkIsChained(v: Vocabulary, source: string, base: nat, i: nat, prev: CallSite)
    requires Usual(v) && i <= |source| && prev.kind == Paren && prev.end == base + i && NextLink(v, source, i).Some?
    ensures var (m, e, j) := NextLink(v, source, i).value;
            var ident := source[m..e];
            Named(v, source, base, {}, [prev], ParenSite(source, base, ident, prev.qualified + "()." + ident, j).0)
  {
    hide *;
    var (m, e, j) := NextLink(v, source, i).value;
    var ident := source[m..e];
    var dot := LinkIsLinked(v, source, i);
    ParenFields(source, base, ident, prev.qualified + "()." + ident, j);
    IsChained(v, source, base, prev, dot, m, ParenSite(source, base, ident, prev.qualified + "()." + ident, j).0);
  }

  lemma IsChained(v: Vocabulary, source: string, base: nat, prev: CallSite, dot: nat, a: nat, site: CallSite)
    requires prev.kind == Paren && base <= prev.end && base <= site.at && site.kind == Paren
    requires Linked(v, source, prev.end - base, dot, a, site.at - base) && a <= |source|
    requires site.name == source[a..IdentEnd(v, source, a)] && site.qualified == prev.qualified + "()." + site.name
    ensures Named(v, source, base, {}, [prev], site)
  {
    hide Linked, IdentEnd;
    assert ChainedTo(v, source, base, prev, dot, a, site);
  }

  lemma LinkIsLinked(v: Vocabulary, source: string, i: nat) returns (dot: nat)
    requires Usual(v) && i <= |source| && NextLink(v, source, i).Some?
    ensures var (m, e, j) := NextLink(v, source, i).value;
            m <= |source| && Linked(v, source, i, dot, m, j) && e == IdentEnd(v, source, m)
  {
    hide IdentEnd, AfterBlanks, StartsAt, ChainLink, Usual, AllIn, WordAt;
    dot := ChainLink(source, i);
    StartsIs(source, dot, "?.");
    StartsIs(source, dot, ".");
    LinkGap(source, i);
    var n := if source[dot] == '?' then dot + 2 else dot + 1;
    var m := AfterBlanks(source, n, BLANKS);
    AllBlank(source, n);
    LinkHead(v, source, n, m);
    AllBlank(source, IdentEnd(v, source, m));
  }

  lemma LinkHead(v: Vocabulary, source: string, n: nat, m: nat)
    requires Usual(v) && 0 < n <= |source| && source[n - 1] == '.' && AllIn(source, n, m, " \t") && IdentEnd(v, source, m) > m
    ensures WordAt(v, source, m)
  {
    hide IdentEnd;
    BlankIsNoPart(v);
    assert '.' in MARKS;
    WordBehindMark(v, source, m);
  }

  lemma LinkGap(source: string, i: nat)
    requires i <= |source|
    ensures var dot := ChainLink(source, i);
            dot < |source| && source[dot] != '\n' ==> LinkBlanks(source, i, dot)
  {
    hide AfterBlanks, StartsAt, AllIn;
    var j := AfterBlanks(source, i, BLANKS);
    AllBlank(source, i);
    if j < |source| && source[j] == '\n' { AllBlank(source, j + 1); }
  }

  lemma {:induction false} ArgsAreNamed(v: Vocabulary, source: string, base: nat, j: nat, few: set<string>, bare: set<string>)
    requires Usual(v) && j < |source| && source[j] == '(' && few <= bare
    ensures var nested := ArgCalls(v, ParenText(source, j).0, base + j + 1, few); AllNamed(v, source, base, bare, nested, nested)
    decreases |source|, 0, 0
  {
    hide AllNamed, Usual, CallsOf, ParenText;
    var (args, end) := ParenText(source, j);
    NamedNone(v, source, base, bare, []);
    assert args == source[j + 1..j + 1 + |args|];
    CallsAreNamed(v, args, base + j + 1, few);
    PieceIsNamed(v, source, base, j + 1, j + 1 + |args|, bare, few, CallsOf(v, args, base + j + 1, few));
  }

  /** The calls chained to `prev`. */
  lemma {:induction false} ChainIsNamed(v: Vocabulary, source: string, base: nat, i: nat, prev: CallSite, bare: set<string>)
    requires Usual(v) && i <= |source| && prev.kind == Paren && prev.end == base + i
    ensures var sites := ChainSites(v, source, base, i, prev.qualified).0; AllNamed(v, source, base, bare, [prev] + sites, sites)
    decreases |source|, 1, |source| - i
  {
    hide AllNamed, Usual, NextLink, ArgCalls, ParenSite;
    match NextLink(v, source, i)
    case None => NamedNone(v, source, base, bare, [prev] + []);
    case Some((m, e, j)) =>
      var ident := source[m..e];
      var (site, end) := ParenSite(source, base, ident, prev.qualified + "()." + ident, j);
      var nested := ArgCalls(v, site.args, base + j + 1, {});
      var rest := ChainSites(v, source, base, end, site.qualified).0;
      LinkIsChained(v, source, base, i, prev);
      NamedWithMore(v, source, base, bare, [prev], site);
      ParenFields(source, base, ident, prev.qualified + "()." + ident, j);
      ParenTextOf(source, base, ident, prev.qualified + "()." + ident, j);
      ArgsAreNamed(v, source, base, j, {}, bare);
      ChainIsNamed(v, source, base, end, site, bare);
      NamedCall(v, source, base, bare, [prev], site, nested, rest);
  }

  lemma ParenTextOf(source: string, base: nat, name: string, qualified: string, j: nat)
    requires j < |source| && source[j] == '('
    ensures ParenSite(source, base, name, qualified, j).0.args == ParenText(source, j).0
    ensures ParenSite(source, base, name, qualified, j).1 == ParenText(source, j).1
  {
    hide ParenText;
  }

  lemma NamedWithMore(v: Vocabulary, source: string, base: nat, bare: set<string>, found: seq<CallSite>, site: CallSite)
    requires site.kind == Paren && Named(v, source, base, {}, found, site)
    ensures Named(v, source, base, bare, found, site)
  {
    hide ChainedTo, Chain, Names, Leads, Declared;
    if !Chained(v, source, base, found, site) {
      var words, qualified :| Headed(v, source, base, {}, site, words, qualified);
      assert Headed(v, source, base, bare, site, words, qualified);
    }
  }

  /** A call, the sites in its arguments and the sites chained to it. */
  lemma NamedCall(v: Vocabulary, source: string, base: nat, bare: set<string>, before: seq<CallSite>, site: CallSite,
                  nested: seq<CallSite>, rest: seq<CallSite>)
    requires Named(v, source, base, bare, before, site)
    requires AllNamed(v, source, base, bare, nested, nested) && AllNamed(v, source, base, bare, [site] + rest, rest)
    ensures AllNamed(v, source, base, bare, before + ([site] + nested + rest), [site] + nested + rest)
  {
    hide AllNamed, Named;
    var all := before + ([site] + nested + rest);
    NamedOne(v, source, base, bare, before, site);
    NamedMore(v, source, base, bare, before, all, [site]);
    NamedMore(v, source, base, bare, nested, all, nested);
    NamedMore(v, source, base, bare, [site] + rest, all, rest);
    NamedJoin(v, source, base, bare, all, [site], nested);
    NamedJoin(v, source, base, bare, all, [site] + nested, rest);
  }

  lemma {:induction false} CallAndChainAreNamed(v: Vocabulary, source: string, base: nat, i: nat, j: nat, bare: set<string>)
    requires Usual(v) && WordAt(v, source, i) && Clean(v, source, bare, i)
    requires i < |source| && BranchAt(v, source, i, bare) == CallBranch
    requires j == AfterBlanks(source, NameAt(v, source, i).end, BLANKS_AND_BREAKS) < |source| && source[j] == '('
    ensures var sites := CallAndChain(v, source, base, NameAt(v, source, i).ident, NameAt(v, source, i).qualified, j, bare).0;
            AllNamed(v, source, base, bare, sites, sites)
    decreases |source|, 1, |source| + 1
  {
    hide *;
    var name := NameAt(v, source, i);
    var (site, end) := ParenSite(source, base, name.ident, name.qualified, j);
    var nested := ArgCalls(v, site.args, base + j + 1, bare);
    CallIsNamed(v, source, base, i, bare);
    ParenFields(source, base, name.ident, name.qualified, j);
    ParenTextOf(source, base, name.ident, name.qualified, j);
    ArgsAreNamed(v, source, base, j, bare, bare);
    ChainIsNamed(v, source, base, end, site, bare);
    var rest := ChainSites(v, source, base, end, name.qualified).0;
    NamedCall(v, source, base, bare, [], site, nested, rest);
    CallAndChainIs(v, source, base, name.ident, name.qualified, j, bare);
    assert [] + ([site] + nested + rest) == [site] + nested + rest;
  }

  lemma CallAndChainIs(v: Vocabulary, source: string, base: nat, name: string, qualified: string, j: nat, bare: set<string>)
    requires j < |source| && source[j] == '('
    ensures var (site, end) := ParenSite(source, base, name, qualified, j);
            CallAndChain(v, source, base, name, qualified, j, bare).0 ==
            [site] + ArgCalls(v, site.args, base + j + 1, bare) + ChainSites(v, source, base, end, qualified).0
  {
    hide ParenSite, ArgCalls, ChainSites;
  }

  lemma OneNamed(v: Vocabulary, source: string, base: nat, bare: set<string>, site: CallSite)
    requires Named(v, source, base, bare, [], site)
    ensures AllNamed(v, source, base, bare, [site], [site])
  {
    hide Named;
    NamedOne(v, source, base, bare, [], site);
    NamedMore(v, source, base, bare, [], [site], [site]);
  }

  lemma {:induction false} WordIsNamed(v: Vocabulary, source: string, base: nat, i: nat, bare: set<string>)
    requires Usual(v) && i < |source| && v.identStart(source[i]) && Clean(v, source, bare, i)
    ensures var (sites, next) := WordSites(v, source, base, i, bare);
            AllNamed(v, source, base, bare, sites, sites) && Clean(v, source, bare, next)
    decreases |source|, 2, 0
  {
    hide *;
    var e := IdentEnd(v, source, i);
    var name := NameAt(v, source, i);
    var j := AfterBlanks(source, name.end, BLANKS_AND_BREAKS);
    CleanWord(v, source, bare, i);
    WordByBranch(v, source, base, i, bare);
    NamedNone(v, source, base, bare, []);
    WordStops(v, source, base, i, bare);
    var (sites, next) := WordSites(v, source, base, i, bare);
    match BranchAt(v, source, i, bare)
    case NewBranch =>
      NewIsNamed(v, source, base, i, bare);
      OneNamed(v, source, base, bare, NewSite(v, source, base, e).value.0);
      CleanStopped(v, source, bare, next);
    case CallBranch =>
      CallAndChainAreNamed(v, source, base, i, j, bare);
      CallAndChainIs(v, source, base, name.ident, name.qualified, j, bare);
      CleanStopped(v, source, bare, next);
    case BraceBranch =>
      BraceIsNamed(v, source, base, i, bare);
      OneNamed(v, source, base, bare, BraceSite(source, base, name.ident, name.qualified, j).0);
      CleanStopped(v, source, bare, next);
    case BareBranch =>
      BareIsNamed(v, source, base, i, bare);
      OneNamed(v, source, base, bare, BareSite(v, source, base, name.ident, name.qualified, j).value.0);
      CleanStopped(v, source, bare, next);
    case AssignBranch =>
      AssignIsNamed(v, source, base, i, bare);
      OneNamed(v, source, base, bare, AssignSite(v, source, base, name.ident, name.qualified, j).0);
      CleanStopped(v, source, bare, next);
    case NoBranch => CleanPassed(v, source, bare, i);
  }

  /** One character that is no word: behind it the scan is in code and not inside a name, or in a string. */
  lemma CleanAfter(v: Vocabulary, source: string, bare: set<string>, i: nat, quote: Option<char>)
    requires Usual(v) && i < |source|
    requires if quote.None? then Clean(v, source, bare, i) else quote.value in QUOTES.delims
    requires quote.None? ==> source[i] in QUOTES.delims || source[i] == '\n' || IdentEnd(v, source, i) == i
    ensures (quote.None? && source[i] !in QUOTES.delims) || quote == Some(source[i]) ==> Clean(v, source, bare, i + 1)
  {
    hide Usual, IdentEnd, Clean;
    if source[i] in QUOTES.delims || source[i] == '\n' {
      CleanBehind(v, source, bare, i, i + 1);
    } else if quote.None? {
      CleanStep(v, source, bare, i);
    }
  }

  lemma {:induction false} ScanIsNamed(v: Vocabulary, source: string, base: nat, i: nat, quote: Option<char>, escape: bool,
    bare: set<string>)
    requires Usual(v) && i <= |source|
    requires if quote.None? then Clean(v, source, bare, i) else quote.value in QUOTES.delims
    ensures var sites := ScanFrom(v, source, base, i, quote, escape, bare); AllNamed(v, source, base, bare, sites, sites)
    decreases |source|, 3, |source| - i
  {
    hide AllNamed, Usual, SkipEnd, Inner, WordSites, IdentEnd, CallsOf, Interpolates, Clean;
    NamedNone(v, source, base, bare, []);
    if i < |source| {
      var ch := source[i];
      if quote == Some('`') && !escape && ch != '\\' && Interpolates(source[i..]) {
        Opened(source, i);
        var end, inner := SkipEnd(source, i + 2), Inner(source, i + 2);
        CallsAreNamed(v, inner, base + i + 2, bare);
        assert inner == source[i + 2..i + 2 + |inner|];
        PieceIsNamed(v, source, base, i + 2, i + 2 + |inner|, bare, bare, CallsOf(v, inner, base + i + 2, bare));
        ScanIsNamed(v, source, base, end, quote, false, bare);
        NamedParts(v, source, base, bare, CallsOf(v, inner, base + i + 2, bare), ScanFrom(v, source, base, end, quote, false, bare));
      } else if quote.None? && ch !in QUOTES.delims && ch != '\n' && IdentEnd(v, source, i) > i {
        var (sites, next) := WordSites(v, source, base, i, bare);
        WordIsNamed(v, source, base, i, bare);
        ScanIsNamed(v, source, base, next, None, false, bare);
        NamedParts(v, source, base, bare, sites, ScanFrom(v, source, base, next, None, false, bare));
      } else {
        var left := !escape && ch != '\\' && quote == Some(ch);
        var quote' := if quote.None? then (if ch in QUOTES.delims then Some(ch) else None) else if left then None else quote;
        CleanAfter(v, source, bare, i, quote);
        ScanIsNamed(v, source, base, i + 1, quote', quote.Some? && !escape && ch == '\\', bare);
      }
    }
  }

  /** The names of all sites of every text. */
  lemma {:induction false} CallsAreNamed(v: Vocabulary, source: string, base: nat, bare: set<string>)
    requires Usual(v)
    ensures var found := CallsOf(v, source, base, bare); AllNamed(v, source, base, bare, found, found)
    decreases |source|, 4, 0
  {
    hide AllNamed, Usual, ScanFrom, Clean;
    CleanAtStart(v, source, bare);
    ScanIsNamed(v, source, base, 0, None, false, bare);
  }

  /**
   Every call is recorded under the word before its parenthesis: blanks, line breaks and at most one separator lie
   between them.
   */
  lemma NameIsWordBefore(v: Vocabulary, source: string, base: nat, bare: set<string>, site: CallSite) returns (a: nat)
    requires Usual(v) && site in CallsOf(v, source, base, bare) && (site.kind == Paren || site.kind == New)
    ensures base <= site.at < base + |source| && source[site.at - base] == '('
    ensures WordAt(v, source, a) && site.name == source[a..IdentEnd(v, source, a)]
    ensures var e, k := IdentEnd(v, source, a), site.at - base; AllIn(source, e, k, " \t\n") || Joined(source, e, k)
  {
    hide *;
    CallsAreNamed(v, source, base, bare);
    var found := CallsOf(v, source, base, bare);
    OneOfNamed(v, source, base, bare, found, site);
    a := WordBefore(v, source, base, bare, found, site);
  }

  lemma OneOfNamed(v: Vocabulary, source: string, base: nat, bare: set<string>, found: seq<CallSite>, site: CallSite)
    requires AllNamed(v, source, base, bare, found, found) && site in found
    ensures Named(v, source, base, bare, found, site)
  {
    hide Named;
  }

  lemma WordBefore(v: Vocabulary, source: string, base: nat, bare: set<string>, found: seq<CallSite>, site: CallSite)
    returns (a: nat)
    requires Named(v, source, base, bare, found, site) && (site.kind == Paren || site.kind == New)
    ensures base <= site.at < base + |source| && source[site.at - base] == '('
    ensures WordAt(v, source, a) && site.name == source[a..IdentEnd(v, source, a)]
    ensures var e, k := IdentEnd(v, source, a), site.at - base; AllIn(source, e, k, " \t\n") || Joined(source, e, k)
  {
    hide WordAt, IdentEnd, Joined, Without, Leads, LinkBlanks, Declared;
    if site.kind == Paren && Chained(v, source, base, found, site) {
      var prev, dot: nat, a': nat :| prev in found && ChainedTo(v, source, base, prev, dot, a', site);
      a := a';
    } else {
      var words, qualified :| Headed(v, source, base, bare, site, words, qualified);
      a := words[|words| - 1];
      assert WordAt(v, source, words[|words| - 1]);
    }
  }
}
