/**
 `_calls` of `backend/app/parsing/extract.py`: the scanner that records call sites, and the helpers it calls on
 argument texts and interpolations, which call it back.  The loops compute the functions of `CallSites`.
 */
module Calls {
  import opened Braces
  import opened CallSites
  import opened Options
  import opened Texts

  // ----- small readers ------------------------------------------------------------------------------------

  /** `_skip_ws`. */
  method SkipWs(source: string, index: nat) returns (i: nat)
    requires index <= |source|
    ensures i == AfterBlanks(source, index, BLANKS)
  {
    i := index;
    while i < |source| && source[i] in " \t"
      invariant index <= i <= |source|
      invariant AfterBlanks(source, i, BLANKS) == AfterBlanks(source, index, BLANKS)
    {
      i := i + 1;
    }
  }

  /** `_skip_ws_nl`. */
  method SkipWsNl(source: string, index: nat) returns (i: nat)
    requires index <= |source|
    ensures i == AfterBlanks(source, index, BLANKS_AND_BREAKS)
  {
    i := index;
    while i < |source| && source[i] in " \t\n"
      invariant index <= i <= |source|
      invariant AfterBlanks(source, i, BLANKS_AND_BREAKS) == AfterBlanks(source, index, BLANKS_AND_BREAKS)
    {
      i := i + 1;
    }
  }

  /** `_IDENT.match(source, start)`: the end of the identifier, or `start` if there is none. */
  method MatchIdent(v: Vocabulary, source: string, start: nat) returns (end: nat)
    requires start <= |source|
    ensures end == IdentEnd(v, source, start)
  {
    end := start;
    if start < |source| && v.identStart(source[start]) {
      end := start + 1;
      while end < |source| && v.identPart(source[end])
        invariant start < end <= |source|
        invariant PartsEnd(v, source, end) == PartsEnd(v, source, start + 1)
      {
        end := end + 1;
      }
    }
  }

  /** The separator tests of `_read_member_chain`: what the name gains, and the length of what was read. */
  method ReadSeparator(source: string, j: nat) returns (sep: Option<(string, nat)>)
    ensures sep == Separator(source, j)
  {
    hide StartsAt;
    if StartsAt(source, j, "?.") { return Some((".", 2)); }
    if StartsAt(source, j, "::") { return Some(("::", 2)); }
    if StartsAt(source, j, "->") { return Some(("->", 2)); }
    if StartsAt(source, j, ".") { return Some((".", 1)); }
    return None;
  }

  lemma ChainUnfolds(v: Vocabulary, source: string, qualified: string, ident: string, j: nat)
    requires j <= |source|
    ensures var k := AfterBlanks(source, j, BLANKS_AND_BREAKS);
            var sep := Separator(source, k);
            MemberChain(v, source, qualified, ident, j) ==
            if sep.None? then Name(qualified, ident, k)
            else
              var m := AfterBlanks(source, k + sep.value.1, BLANKS_AND_BREAKS);
              var e := IdentEnd(v, source, m);
              if e == m then Name(qualified, ident, m)
              else MemberChain(v, source, qualified + sep.value.0 + source[m..e], source[m..e], e)
  {
    hide Separator, AfterBlanks, IdentEnd;
  }

  /** `_read_member_chain`. */
  method ReadMemberChain(v: Vocabulary, source: string, first: string, index: nat)
    returns (qualified: string, ident: string, j: nat)
    requires index <= |source|
    ensures Name(qualified, ident, j) == MemberChain(v, source, first, first, index)
  {
    hide Separator, AfterBlanks, IdentEnd, MemberChain;
    qualified, ident, j := first, first, index;
    ghost var whole := MemberChain(v, source, first, first, index);
    while true
      invariant index <= j <= |source|
      invariant MemberChain(v, source, qualified, ident, j) == whole
      decreases |source| - j
    {
      ChainUnfolds(v, source, qualified, ident, j);
      j := SkipWsNl(source, j);
      var sep := ReadSeparator(source, j);
      if sep.None? { break; }
      j := j + sep.value.1;
      j := SkipWsNl(source, j);
      var end := MatchIdent(v, source, j);
      if end == j { break; }
      ident := source[j..end];
      qualified := qualified + sep.value.0 + ident;
      j := end;
    }
  }

  /** `_is_declaration`. */
  method IsDeclaration(v: Vocabulary, source: string, identStart: nat) returns (declares: bool)
    requires identStart <= |source|
    ensures declares <==> Declared(v, source, identStart)
  {
    var k: nat := identStart;
    while k > 0 && source[k - 1] in " \t"
      invariant k <= identStart && BlanksStart(source, k) == BlanksStart(source, identStart)
    {
      k := k - 1;
    }
    ghost var end := k;
    var token := "";
    while k > 0 && (v.alnum(source[k - 1]) || source[k - 1] in "_$")
      invariant k <= end && token == source[k..end] && WordStart(v, source, k) == WordStart(v, source, end)
    {
      k := k - 1;
      token := [source[k]] + token;
    }
    declares := v.lower(token) in v.declarations;
  }

  /** The loop of `_bare_arguments` and of `_read_rhs`: to the first break outside strings and brackets. */
  method ReadToBreak(source: string, start: nat) returns (i: nat)
    requires start <= |source|
    ensures i == BreakFrom(source, start, Reader(None, false, 0))
  {
    i := start;
    var depth, n := 0, |source|;
    var inStr: Option<char>, escape := None, false;
    while i < n
      invariant start <= i <= n && depth >= 0
      invariant BreakFrom(source, i, Reader(inStr, escape, depth)) == BreakFrom(source, start, Reader(None, false, 0))
      decreases n - i
    {
      var ch := source[i];
      if inStr.Some? {
        if escape { escape := false; }
        else if ch == '\\' { escape := true; }
        else if inStr == Some(ch) { inStr := None; }
        i := i + 1;
        continue;
      }
      if ch in {'"', '\'', '`'} { inStr := Some(ch); }
      else if ch in "([{" { depth := depth + 1; }
      else if ch in ")]}" {
        if depth == 0 { break; }
        depth := depth - 1;
      } else if ch in ";\n" && depth == 0 { break; }
      i := i + 1;
    }
  }

  /** Offsets of the text that `strip()` leaves of `source[from..to]`. */
  method StripRange(v: Vocabulary, source: string, from: nat, to: nat) returns (lo: nat, hi: nat)
    requires from <= to <= |source|
    ensures lo == StripLeft(v, source, from, to) && hi == StripRight(v, source, lo, to)
  {
    lo, hi := from, to;
    while lo < hi && v.space(source[lo])
      invariant from <= lo <= hi && StripLeft(v, source, lo, to) == StripLeft(v, source, from, to)
    {
      lo := lo + 1;
    }
    while lo < hi && v.space(source[hi - 1])
      invariant lo <= hi <= to && StripRight(v, source, lo, hi) == StripRight(v, source, lo, to)
    {
      hi := hi - 1;
    }
  }

  // ----- the scanner --------------------------------------------------------------------------------------

  /** A call with parentheses at `j`. */
  method ReadCall(source: string, base: nat, name: string, qualified: string, j: nat) returns (site: CallSite, end: nat)
    requires j < |source| && source[j] == '('
    ensures (site, end) == ParenSite(source, base, name, qualified, j)
  {
    var args;
    args, end := BalancedParens(source, j);
    site := CallSite(name, qualified, Paren, base + j, base + j + 1, base + end, base + |source|, args);
  }

  /** `_calls_from_args`. */
  method CallsFromArgs(v: Vocabulary, args: string, base: nat, bare: set<string>) returns (found: seq<CallSite>)
    ensures found == ArgCalls(v, args, base, bare)
    decreases |args|, 5, 0
  {
    if '(' !in args && '=' !in args { return []; }
    found := CallsIn(v, args, base, bare);
  }

  lemma Dots(source: string, j: nat)
    requires j <= |source|
    ensures StartsAt(source, j, ".") <==> j < |source| && source[j] == '.'
    ensures StartsAt(source, j, "?.") ==> j + 2 <= |source|
  {
  }

  /** Where the chain loop looks for the dot. */
  method ReadChainLink(source: string, i: nat) returns (j: nat)
    requires i <= |source|
    ensures j == ChainLink(source, i)
  {
    hide AfterBlanks, StartsAt;
    j := SkipWs(source, i);
    if j < |source| && source[j] == '\n' {
      var peek := SkipWs(source, j + 1);
      if StartsAt(source, peek, ".") || StartsAt(source, peek, "?.") { j := peek; }
    }
  }

  /** One round of the chain loop: the name's range and the parenthesis after it. */
  method ReadLink(v: Vocabulary, source: string, i: nat) returns (more: bool, begin: nat, identEnd: nat, j: nat)
    requires i <= |source|
    ensures NextLink(v, source, i) == if more then Some((begin, identEnd, j)) else None
  {
    hide AfterBlanks, IdentEnd, StartsAt, ChainLink;
    more, begin, identEnd := false, 0, 0;
    j := ReadChainLink(source, i);
    Dots(source, j);
    if StartsAt(source, j, "?.") { j := j + 2; }
    else if j < |source| && source[j] == '.' { j := j + 1; }
    else { return; }
    begin := SkipWs(source, j);
    identEnd := MatchIdent(v, source, begin);
    if identEnd == begin { return; }
    j := SkipWs(source, identEnd);
    more := j < |source| && source[j] == '(';
  }

  /** `_consume_call_chain`: `.next(` and `?.next(` after a call. */
  method ConsumeCallChain(v: Vocabulary, source: string, base: nat, index: nat, previous: CallSite)
    returns (found: seq<CallSite>, i: nat)
    requires index <= |source|
    ensures (found, i) == ChainSites(v, source, base, index, previous.qualified)
    decreases |source|, 1, 0
  {
    hide NextLink, ArgCalls, ParenSite;
    found, i := [], index;
    var last := previous;
    ghost var whole := ChainSites(v, source, base, index, previous.qualified);
    while true
      invariant index <= i <= |source|
      invariant var (rest, next) := ChainSites(v, source, base, i, last.qualified); found + rest == whole.0 && next == whole.1
      decreases |source| - i
    {
      var more, begin, identEnd, j := ReadLink(v, source, i);
      if !more {
        assert ChainSites(v, source, base, i, last.qualified) == ([], i) && found + [] == found;
        break;
      }
      var ident := source[begin..identEnd];
      ghost var (rest, _) := ChainSites(v, source, base, i, last.qualified);
      ParenSiteNamed(source, base, ident, last.qualified + "()." + ident, j);
      var end;
      last, end := ReadCall(source, base, ident, last.qualified + "()." + ident, j);
      var nested := CallsFromArgs(v, last.args, base + j + 1, {});
      ghost var later := ChainSites(v, source, base, end, last.qualified).0;
      assert rest == [last] + nested + later;
      assert found + rest == (found + [last] + nested) + later;
      found := found + [last] + nested;
      i := end;
    }
  }

  /** `_constructor_call`: `new Name(...)`. */
  method ConstructorCall(v: Vocabulary, source: string, base: nat, index: nat) returns (site: Option<CallSite>, end: nat)
    requires index <= |source|
    ensures NewSite(v, source, base, index) == if site.Some? then Some((site.value, end)) else None
  {
    hide AfterBlanks, IdentEnd, MemberChain, ParenSite;
    site, end := None, index;
    var j := SkipWs(source, index);
    var identEnd := MatchIdent(v, source, j);
    if identEnd == j { return; }
    var qualified, ident;
    qualified, ident, j := ReadMemberChain(v, source, source[j..identEnd], identEnd);
    j := SkipWs(source, j);
    if j >= |source| || source[j] != '(' { return; }
    var call;
    call, end := ReadCall(source, base, ident, "new " + qualified, j);
    site := Some(call.(kind := New));
  }

  /** `_scan_interpolation_calls`: the sites inside an interpolation whose text begins at `start`. */
  method InterpolationCalls(v: Vocabulary, source: string, base: nat, start: nat, bare: set<string>)
    returns (found: seq<CallSite>)
    requires 0 < start <= |source|
    ensures found == CallsOf(v, Inner(source, start), base + start, bare)
    decreases |source|, 0, 0
  {
    hide SkipEnd;
    var end := SkipBalancedBrace(source, start);
    var inner := if end > start then source[start..end - 1] else "";
    found := CallsIn(v, inner, base + start, bare);
  }

  /** `_bare_arguments`. */
  method BareArguments(v: Vocabulary, source: string, base: nat, name: string, qualified: string, j: nat)
    returns (site: Option<CallSite>, end: nat)
    requires j <= |source|
    ensures BareSite(v, source, base, name, qualified, j) == if site.Some? then Some((site.value, end)) else None
  {
    hide AfterBlanks, BreakFrom;
    var begin := SkipWs(source, j);
    end := ReadToBreak(source, begin);
    var lo, hi := StripRange(v, source, begin, end);
    site := if lo < hi
            then Some(CallSite(name, qualified, Bare, base + j, base + lo, base + end, base + |source|, source[lo..hi]))
            else None;
  }

  /** `_read_rhs`, for the property assignment whose `=` is at `j`. */
  method ReadRhs(v: Vocabulary, source: string, base: nat, name: string, qualified: string, j: nat)
    returns (site: CallSite, end: nat)
    requires j < |source|
    ensures (site, end) == AssignSite(v, source, base, name, qualified, j)
  {
    hide BreakFrom;
    end := ReadToBreak(source, j + 1);
    var lo, hi := StripRange(v, source, j + 1, end);
    site := CallSite(name, qualified, Assign, base + j, base + lo, base + end, base + |source|, source[lo..hi]);
  }

  /** `_balanced_braces`, for the `={` at `j`. */
  method BalancedBraces(source: string, base: nat, name: string, qualified: string, j: nat)
    returns (site: CallSite, end: nat)
    requires StartsAt(source, j, "={")
    ensures (site, end) == BraceSite(source, base, name, qualified, j)
  {
    end := SkipBalancedBrace(source, j + 2);
    var args := if end > j + 2 then source[j + 2..end - 1] else "";
    site := CallSite(name, qualified, Brace, base + j + 1, base + j + 2, base + end, base + |source|, args);
  }

  /** One identifier in code position: the sites it contributes and where scanning goes on. */
  method ScanIdentifier(v: Vocabulary, source: string, base: nat, i: nat, identEnd: nat, bare: set<string>)
    returns (found: seq<CallSite>, next: nat)
    requires i < |source| && v.identStart(source[i]) && identEnd == IdentEnd(v, source, i)
    ensures (found, next) == WordSites(v, source, base, i, bare)
    decreases |source|, 2, 0
  {
    hide AfterBlanks, IdentEnd, MemberChain, ParenSite, NewSite, Declared, ChainSites, ArgCalls, BraceSite, BareSite,
      AssignSite, Contains, IsComparisonOrArrow, StartsAt;
    found, next := [], identEnd;
    var ident := source[i..identEnd];
    if ident == "new" {
      var ctor, end := ConstructorCall(v, source, base, identEnd);
      if ctor.Some? { return [ctor.value], end; }
    }
    var qualified, j;
    qualified, ident, j := ReadMemberChain(v, source, ident, identEnd);
    j := SkipWsNl(source, j);
    if j < |source| && source[j] == '(' {
      var isMember := Contains(qualified, ".") || Contains(qualified, "::") || Contains(qualified, "->");
      var declares := IsDeclaration(v, source, i);
      if (v.lower(ident) in v.nonCall && !isMember) || declares { return; }
      var site, end := ReadCall(source, base, ident, qualified, j);
      ParenSiteNamed(source, base, ident, qualified, j);
      var nested := CallsFromArgs(v, site.args, base + j + 1, bare);
      var chain;
      chain, next := ConsumeCallChain(v, source, base, end, site);
      return [site] + nested + chain, next;
    }
    if StartsAt(source, j, "={") {
      var site, end := BalancedBraces(source, base, ident, qualified, j);
      return [site], end;
    }
    if v.lower(ident) in bare {
      var site, end := BareArguments(v, source, base, ident, qualified, j);
      if site.Some? { return [site.value], end; }
    }
    if j < |source| && source[j] == '=' && !IsComparisonOrArrow(source, j) {
      if Contains(qualified, ".") || Contains(qualified, "::") {
        var site, end := ReadRhs(v, source, base, ident, qualified, j);
        return [site], end;
      }
    }
  }

  lemma ParenSiteNamed(source: string, base: nat, name: string, qualified: string, j: nat)
    requires j < |source| && source[j] == '('
    ensures ParenSite(source, base, name, qualified, j).0.qualified == qualified
  {
  }

  /** `_calls`: ends on every input, and records the sites of the text. */
  method CallsIn(v: Vocabulary, source: string, base: nat, bare: set<string>) returns (found: seq<CallSite>)
    ensures found == CallsOf(v, source, base, bare)
    decreases |source|, 3, 0
  {
    hide SkipEnd, WordSites, IdentEnd, Inner;
    found := [];
    var i, n := 0, |source|;
    var inStr: Option<char>, escape := None, false;
    ghost var whole := CallsOf(v, source, base, bare);
    while i < n
      invariant 0 <= i <= n && (inStr.None? ==> !escape)
      invariant found + ScanFrom(v, source, base, i, inStr, escape, bare) == whole
      decreases n - i
    {
      var ch := source[i];
      if inStr.Some? {
        if escape {
          escape := false;
          i := i + 1;
        } else if ch == '\\' {
          escape := true;
          i := i + 1;
        } else if inStr == Some('`') && ch == '$' && i + 1 < n && source[i + 1] == '{' {
          i := i + 2;
          var inside := InterpolationCalls(v, source, base, i, bare);
          var end := SkipBalancedBrace(source, i);
          assert found + (inside + ScanFrom(v, source, base, end, inStr, false, bare)) == whole;
          found := found + inside;
          i := end;
          continue;
        } else {
          if inStr == Some(ch) { inStr := None; }
          i := i + 1;
        }
        continue;
      }
      if ch in {'"', '\'', '`'} {
        inStr := Some(ch);
        i := i + 1;
        continue;
      }
      if ch == '\n' {
        i := i + 1;
        continue;
      }
      var identEnd := MatchIdent(v, source, i);
      if identEnd == i {
        i := i + 1;
        continue;
      }
      var sites, next := ScanIdentifier(v, source, base, i, identEnd, bare);
      assert found + (sites + ScanFrom(v, source, base, next, None, false, bare)) == whole;
      found := found + sites;
      i := next;
    }
  }
}
