/**
 The literals that are tried for each Solidity type, written out type by type.
 */
module SolidityLiterals {
  import opened Options
  import opened SolidityArguments
  import opened Texts

  /** The literals alone. */
  function Literals(r: Option<seq<Candidate>>): Option<seq<string>> {
    if r.None? then None else Some(seq(|r.value|, k requires 0 <= k < |r.value| => r.value[k].literal))
  }

  /** A text without an opening bracket is no array type. */
  lemma NotAnArray(c: Chars, t: string)
    requires '[' !in t
    ensures ArrayParts(c, Replace(t, " ", "")).None?
  {
    NoBracketAfter(t);
    var s := Replace(t, " ", "");
    assert RFindChar(s, '[') == -1;
  }

  lemma {:induction false} NoBracketAfter(t: string)
    requires '[' !in t
    ensures '[' !in Replace(t, " ", "")
    decreases |t|
  {
    if t != "" {
      if " " <= t {
        assert |" "| == 1 && "" + Replace(t[1..], " ", "") == Replace(t[1..], " ", "");
        NoBracketAfter(t[1..]);
      } else {
        NoBracketAfter(t[1..]);
      }
    }
  }

  /** A type that is neither an array nor refused at once. */
  predicate Simple(t: string) {
    '[' !in t && !Contains(t, "mapping") && !("function" <= t)
  }

  /** The branch for a type that is no array, with the one for tuples left as it is. */
  lemma Branches(c: Chars, t: string)
    requires t != "" && Simple(t)
    ensures Candidates(c, t) ==
      if Width(c, t, "uint").Some? then
        if BadWidth(c, Width(c, t, "uint").value) then None
        else Some([Candidate("0", "zero", t), Candidate("1", "one", t), Candidate("type(" + t + ").max", "max", t)])
      else if Width(c, t, "int").Some? then
        if BadWidth(c, Width(c, t, "int").value) then None
        else Some([Candidate("0", "zero", t), Candidate("1", "one", t), Candidate("-1", "boundary", t),
                   Candidate("type(" + t + ").min", "min", t)])
      else if t == "bool" then Some([Candidate("false", "zero", t), Candidate("true", "one", t)])
      else if t == "address" then Some([Candidate("address(0)", "zero", t), Candidate("address(1)", "one", t)])
      else if t == "bytes" then Some([Candidate("hex\"\"", "zero", t), Candidate("hex\"01\"", "one", t)])
      else if Width(c, t, "bytes").Some? then
        if 1 <= c.number(Width(c, t, "bytes").value) <= 32 then Some([Candidate(t + "(0)", "zero", t)]) else None
      else if "enum " <= t then Some([Candidate("0", "zero", t)])
      else if "contract " <= t then Some([Candidate("address(1)", "contract-address", t)])
      else if "(" <= t && EndsWith(t, ")") then Candidates(c, t)
      else if c.upper(t[0]) then Some([Candidate("address(1)", "contract-address", t)])
      else None
  {
    NotAnArray(c, t);
    hide Pieces, ParameterTypes, ArrayParts, Width, Contains, Commas, ArrayCandidates, Replace, EndsWith, BadWidth;
  }

  /** Which prefixes a text can have, by its first characters. */
  lemma Prefixes(c: Chars, t: string)
    requires t != ""
    ensures t[0] != 'u' ==> Width(c, t, "uint").None?
    ensures t[0] != 'i' ==> Width(c, t, "int").None?
    ensures t[0] != 'b' ==> t != "bool" && t != "bytes" && Width(c, t, "bytes").None?
    ensures t[0] != 'a' ==> t != "address"
    ensures t[0] != 'e' ==> !("enum " <= t)
    ensures t[0] != 'c' ==> !("contract " <= t)
    ensures t[0] != '(' ==> !("(" <= t)
    ensures |t| > 1 && t[1] != 'y' ==> t != "bytes" && Width(c, t, "bytes").None?
  {
    hide AllDigits;
  }

  lemma WidthIs(c: Chars, prefix: string, digits: string)
    requires AllDigits(c, digits)
    ensures Width(c, prefix + digits, prefix) == Some(digits)
  {
    hide AllDigits;
    assert (prefix + digits)[|prefix|..] == digits;
  }

  lemma BadIs(c: Chars, digits: string)
    ensures var width := if digits == "" then 256 else c.number(digits);
            BadWidth(c, digits) <==> !(1 <= width <= 256 && width % 8 == 0)
  {
  }

  lemma LiteralsOf(a: Candidate, b: Candidate, d: Candidate, e: Candidate)
    ensures Literals(Some([a])) == Some([a.literal])
    ensures Literals(Some([a, b])) == Some([a.literal, b.literal])
    ensures Literals(Some([a, b, d])) == Some([a.literal, b.literal, d.literal])
    ensures Literals(Some([a, b, d, e])) == Some([a.literal, b.literal, d.literal, e.literal])
    ensures Literals(None).None?
  {
    assert Literals(Some([a])).value == [a.literal];
    assert Literals(Some([a, b])).value == [a.literal, b.literal];
    assert Literals(Some([a, b, d])).value == [a.literal, b.literal, d.literal];
    assert Literals(Some([a, b, d, e])).value == [a.literal, b.literal, d.literal, e.literal];
  }

  /** An unsigned integer: its width is a multiple of 8 up to 256, and 256 if none is given. */
  lemma UintLiterals(c: Chars, digits: string)
    requires AllDigits(c, digits) && Simple("uint" + digits)
    ensures var t := "uint" + digits;
            var width := if digits == "" then 256 else c.number(digits);
            Literals(Candidates(c, t)) ==
              if 1 <= width <= 256 && width % 8 == 0 then Some(["0", "1", "type(" + t + ").max"]) else None
  {
    hide *;
    var t := "uint" + digits;
    Branches(c, t);
    WidthIs(c, "uint", digits);
    BadIs(c, digits);
    var a, b, d := Candidate("0", "zero", t), Candidate("1", "one", t), Candidate("type(" + t + ").max", "max", t);
    LiteralsOf(a, b, d, d);
  }

  lemma IntLiterals(c: Chars, digits: string)
    requires AllDigits(c, digits) && Simple("int" + digits)
    ensures var t := "int" + digits;
            var width := if digits == "" then 256 else c.number(digits);
            Literals(Candidates(c, t)) ==
              if 1 <= width <= 256 && width % 8 == 0 then Some(["0", "1", "-1", "type(" + t + ").min"]) else None
  {
    hide *;
    var t := "int" + digits;
    Branches(c, t);
    Prefixes(c, t);
    WidthIs(c, "int", digits);
    BadIs(c, digits);
    var a, b, d, e := Candidate("0", "zero", t), Candidate("1", "one", t), Candidate("-1", "boundary", t),
      Candidate("type(" + t + ").min", "min", t);
    LiteralsOf(a, b, d, e);
  }

  /** Fixed byte strings of 1 to 32 bytes. */
  lemma BytesLiterals(c: Chars, digits: string)
    requires digits != "" && AllDigits(c, digits) && Simple("bytes" + digits)
    ensures var t := "bytes" + digits;
            Literals(Candidates(c, t)) == if 1 <= c.number(digits) <= 32 then Some([t + "(0)"]) else None
  {
    hide *;
    var t := "bytes" + digits;
    Branches(c, t);
    Prefixes(c, t);
    WidthIs(c, "bytes", digits);
    assert |t| > 5 && t[1] == 'y' && "bool"[1] == 'o';
    var a := Candidate(t + "(0)", "zero", t);
    LiteralsOf(a, a, a, a);
  }

  lemma BoolLiterals(c: Chars)
    ensures Literals(Candidates(c, "bool")) == Some(["false", "true"])
  {
    hide *;
    WordIsSimple("bool");
    Branches(c, "bool");
    Prefixes(c, "bool");
    var a, b := Candidate("false", "zero", "bool"), Candidate("true", "one", "bool");
    LiteralsOf(a, b, b, b);
  }

  lemma AddressLiterals(c: Chars)
    ensures Literals(Candidates(c, "address")) == Some(["address(0)", "address(1)"])
  {
    hide *;
    WordIsSimple("address");
    Branches(c, "address");
    Prefixes(c, "address");
    var a, b := Candidate("address(0)", "zero", "address"), Candidate("address(1)", "one", "address");
    LiteralsOf(a, b, b, b);
  }

  lemma ByteStringLiterals(c: Chars)
    ensures Literals(Candidates(c, "bytes")) == Some(["hex\"\"", "hex\"01\""])
  {
    hide *;
    WordIsSimple("bytes");
    Branches(c, "bytes");
    Prefixes(c, "bytes");
    assert "bytes"[1] == 'y' && "bool"[1] == 'o';
    var a, b := Candidate("hex\"\"", "zero", "bytes"), Candidate("hex\"01\"", "one", "bytes");
    LiteralsOf(a, b, b, b);
  }

  lemma WordIsSimple(t: string)
    requires t == "bool" || t == "address" || t == "bytes"
    ensures Simple(t)
  {
    forall k | 0 <= k <= |t| ensures !("mapping" <= t[k..]) {
      if k < |t| { assert t[k..][0] == t[k] != 'm'; }
    }
  }

  /** Enums, contracts, and names that begin with a capital letter. */
  lemma NameLiterals(c: Chars, name: string)
    requires name != "" && Simple(name) && name[0] !in {'u', 'i', 'b', 'a', '('}
    ensures Literals(Candidates(c, name)) ==
      if "enum " <= name then Some(["0"])
      else if "contract " <= name then Some(["address(1)"])
      else if c.upper(name[0]) then Some(["address(1)"])
      else None
  {
    hide *;
    Branches(c, name);
    Prefixes(c, name);
    var a, b := Candidate("0", "zero", name), Candidate("address(1)", "contract-address", name);
    LiteralsOf(a, a, a, a);
    LiteralsOf(b, b, b, b);
  }

  /** Mappings, functions and the empty text are not supported. */
  lemma RefusedTypes(c: Chars, t: string)
    requires t == "" || Contains(t, "mapping") || "function" <= t
    ensures Candidates(c, t).None?
  {
    hide Contains;
  }

  // ----- arrays --------------------------------------------------------------------------------------------------

  /** An array of a supported type: open, or of at most one element. */
  lemma ArrayLiterals(c: Chars, inner: string, digits: string)
    requires inner != "" && '\n' !in inner && ' ' !in inner && ' ' !in digits && '[' !in digits && AllDigits(c, digits)
    requires !Contains(inner + "[" + digits + "]", "mapping") && !("function" <= inner + "[" + digits + "]")
    ensures var t := inner + "[" + digits + "]";
            var element := Candidates(c, inner);
            Literals(Candidates(c, t)) ==
              if element.None? then None
              else if digits == "" then Some(["new " + inner + "[](0)", "[" + element.value[0].literal + "]"])
              else if digits == "1" && c.number(digits) <= 1 then Some(["[" + element.value[0].literal + "]"])
              else None
  {
    var t := inner + "[" + digits + "]";
    hide *;
    NoSpaces(t);
    ArrayIsRead(c, inner, digits);
    ArrayBranch(c, t, inner, digits);
    var element := Candidates(c, inner);
    var none := Candidate("", "", t);
    LiteralsOf(none, none, none, none);
    if element.Some? {
      var a := Candidate("new " + inner + "[](0)", "zero", t);
      var b := Candidate("[" + element.value[0].literal + "]", "boundary", t);
      LiteralsOf(a, b, b, b);
      LiteralsOf(b, b, b, b);
    }
  }

  lemma ArrayBranch(c: Chars, t: string, inner: string, digits: string)
    requires t != "" && !Contains(t, "mapping") && !("function" <= t)
    requires ArrayParts(c, Replace(t, " ", "")) == Some((inner, digits))
    ensures var element := Candidates(c, inner);
            Candidates(c, t) ==
              if digits != "" && c.number(digits) > 1 then None
              else if element.None? then None
              else if digits == "1" then Some([Candidate("[" + element.value[0].literal + "]", "boundary", t)])
              else if digits != "" then None
              else Some([Candidate("new " + inner + "[](0)", "zero", t),
                         Candidate("[" + element.value[0].literal + "]", "boundary", t)])
  {
    hide Pieces, ParameterTypes, ArrayParts, Width, Contains, Commas, Replace, EndsWith, BadWidth;
  }

  lemma {:induction false} NoSpaces(t: string)
    requires ' ' !in t
    ensures Replace(t, " ", "") == t
    decreases |t|
  {
    if t != "" {
      assert t[0] in t && t[0] != ' ';
      NoSpaces(t[1..]);
    }
  }

  lemma ArrayIsRead(c: Chars, inner: string, digits: string)
    requires inner != "" && '\n' !in inner && '[' !in digits && AllDigits(c, digits)
    ensures ArrayParts(c, inner + "[" + digits + "]") == Some((inner, digits))
  {
    var t := inner + "[" + digits + "]";
    var open := RFindChar(t, '[');
    assert t[|inner|] == '[';
    var behind := digits + "]";
    assert '[' !in behind && forall k :: |inner| < k < |t| ==> t[k] == behind[k - |inner| - 1];
    assert open == |inner|;
    assert t[..open] == inner && t[open + 1..|t| - 1] == digits && t[|t| - 1..] == "]";
  }
}
