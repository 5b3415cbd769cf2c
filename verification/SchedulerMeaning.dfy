/**
 The scheduler's choices written out: when an engine runs, which capability is missing, the orders that follow from it,
 what a result teaches, and when two coverage numbers are compared.
 */
module SchedulerMeaning {
  import opened Options
  import opened Scheduler
  import TextSplit

  // ----- decisions --------------------------------------------------------------------------------------------

  /** An engine runs exactly if it knows the language, its own condition holds and it is installed. */
  lemma RunsIff(e: Engine, request: Request, f: Feedback)
    ensures Decide(e, request, f).run <==>
      && (request.language in e.languages || e.languages == {})
      && (e.id == "wake" ==> "include_wake" in request.extra && request.extra["include_wake"] == "true")
      && (e.id == "echidna" || e.id == "medusa" ==>
            request.function_ != "" || request.contract != "" || request.hasHarness)
      && (e.id == "halmos" ==> request.difficult || f.difficult)
      && (e.id == "foundry" ==> request.framework == "foundry" || request.hasHarness)
      && e.available
  {
    NamesDiffer();
  }

  lemma NamesDiffer()
    ensures "wake" != "echidna" && "wake" != "medusa" && "wake" != "halmos" && "wake" != "foundry" && "wake" != "ityfuzz"
    ensures "echidna" != "halmos" && "echidna" != "foundry" && "medusa" != "halmos" && "medusa" != "foundry"
    ensures "halmos" != "foundry" && "echidna" != "medusa" && "halmos" != "slither"
  {
    assert "wake"[0] == 'w' && "echidna"[0] == 'e' && "medusa"[0] == 'm' && "halmos"[0] == 'h' && "foundry"[0] == 'f';
    assert "ityfuzz"[0] == 'i' && "slither"[0] == 's';
  }

  /** The reason given for not running: the language first, the engine's own condition second, availability last. */
  lemma ReasonIs(e: Engine, request: Request, f: Feedback)
    ensures var d := Decide(e, request, f);
            var known := request.language in e.languages || e.languages == {};
            && (d.code == "language" <==> !known)
            && (d.code == "optional" <==> known && e.id == "wake" && Get(request.extra, "include_wake") != "true")
            && (d.code == "target" <==>
                  known && (e.id == "echidna" || e.id == "medusa")
                  && request.function_ == "" && request.contract == "" && !request.hasHarness)
            && (d.code == "symbolic_hint" <==> known && e.id == "halmos" && !request.difficult && !f.difficult)
            && (d.code == "framework" <==>
                  known && e.id == "foundry" && request.framework != "foundry" && !request.hasHarness)
            && (d.code == "selected" <==> d.run)
            && d.code in {"language", "optional", "target", "symbolic_hint", "framework", "unavailable", "selected"}
            && (d.code == "unavailable" ==> !e.available)
  {
    NamesDiffer();
    CodesDiffer();
    hide Get;
  }

  lemma CodesDiffer()
    ensures "language" != "optional" && "language" != "target" && "language" != "symbolic_hint" && "language" != "framework"
    ensures "language" != "unavailable" && "language" != "selected" && "optional" != "target" && "optional" != "symbolic_hint"
    ensures "optional" != "framework" && "optional" != "unavailable" && "optional" != "selected" && "target" != "symbolic_hint"
    ensures "target" != "framework" && "target" != "unavailable" && "target" != "selected" && "symbolic_hint" != "framework"
    ensures "symbolic_hint" != "unavailable" && "symbolic_hint" != "selected" && "framework" != "unavailable"
    ensures "framework" != "selected" && "unavailable" != "selected"
  {
    assert "language"[0] == 'l' && "optional"[0] == 'o' && "target"[0] == 't' && "symbolic_hint"[0] == 's';
    assert "framework"[0] == 'f' && "unavailable"[0] == 'u' && "selected"[0] == 's' && "symbolic_hint"[1] == 'y';
  }

  // ----- the missing capability ---------------------------------------------------------------------------------

  /** What a request asks for. */
  datatype Asked = Asked(
    economic: bool, protocol: bool, runtime: bool, fork: bool, differential: bool, stalled: bool, known: bool, encoded: bool)

  /**
   The missing capability is the first of ten that is wanted and was not exercised; if there is none it is static
   analysis.
   */
  lemma MissingIsFirst(request: Request, f: Feedback, a: Asked, w: seq<(string, bool)>, k: nat)
    requires a.economic == (Get(request.extra, "economic") == "true" || Get(request.extra, "source") == "economic")
    requires a.protocol == (Get(request.extra, "protocol") == "true" || Get(request.extra, "source") == "protocol")
    requires a.runtime == (Get(request.extra, "runtime") == "true" || Get(request.extra, "source") == "runtime")
    requires a.fork == (Get(request.extra, "fork") == "true" || Get(request.extra, "source") == "fork")
    requires a.differential ==
             (Get(request.extra, "differential") == "true" || Get(request.extra, "source") == "differential")
    requires a.stalled == (f.stagnating || f.difficult || request.difficult)
    requires a.known == (Get(request.extra, "source") == "static_finding" || request.campaignId != "")
    requires a.encoded == (Get(request.extra, "property") == "encoded")
    requires w == [
      ("economic_simulation", a.economic), ("cross_contract_analysis", a.protocol), ("runtime_validation", a.runtime),
      ("fork_validation", a.fork), ("differential_validation", a.differential), ("symbolic_execution", a.stalled),
      ("fuzzing", a.known), ("test_execution", a.encoded), ("static_analysis", true), ("fuzzing", true)]
    requires k <= |w| && forall j :: 0 <= j < k ==> !w[j].1 || w[j].0 in f.exercised
    requires k < |w| ==> w[k].1 && w[k].0 !in f.exercised
    ensures MissingCapability(request, f) == if k < |w| then w[k].0 else "static_analysis"
  {
    hide *;
    FirstWantedIs(w, f.exercised, k);
    FirstOfTen(a, f.exercised);
    MissingIs(request, f, a);
  }

  function FirstWanted(w: seq<(string, bool)>, exercised: seq<string>): string {
    if w == [] then "static_analysis"
    else if w[0].1 && w[0].0 !in exercised then w[0].0
    else FirstWanted(w[1..], exercised)
  }

  lemma {:induction false} FirstWantedIs(w: seq<(string, bool)>, exercised: seq<string>, k: nat)
    requires k <= |w| && forall j :: 0 <= j < k ==> !w[j].1 || w[j].0 in exercised
    requires k < |w| ==> w[k].1 && w[k].0 !in exercised
    ensures FirstWanted(w, exercised) == if k < |w| then w[k].0 else "static_analysis"
  {
    if k > 0 {
      assert !w[0].1 || w[0].0 in exercised;
      FirstWantedIs(w[1..], exercised, k - 1);
    }
  }

  lemma WantedStep(name: string, wanted: bool, rest: seq<(string, bool)>, exercised: seq<string>)
    ensures FirstWanted([(name, wanted)] + rest, exercised) ==
            if wanted && name !in exercised then name else FirstWanted(rest, exercised)
  {
    assert ([(name, wanted)] + rest)[1..] == rest;
  }

  function Choice(a: Asked, e: seq<string>): string {
    if a.economic && "economic_simulation" !in e then "economic_simulation"
    else if a.protocol && "cross_contract_analysis" !in e then "cross_contract_analysis"
    else if a.runtime && "runtime_validation" !in e then "runtime_validation"
    else if a.fork && "fork_validation" !in e then "fork_validation"
    else if a.differential && "differential_validation" !in e then "differential_validation"
    else if a.stalled && "symbolic_execution" !in e then "symbolic_execution"
    else if a.known && "fuzzing" !in e then "fuzzing"
    else if a.encoded && "test_execution" !in e then "test_execution"
    else if "static_analysis" !in e then "static_analysis"
    else if "fuzzing" !in e then "fuzzing"
    else "static_analysis"
  }

  lemma FirstOfTen(a: Asked, e: seq<string>)
    ensures FirstWanted([
      ("economic_simulation", a.economic), ("cross_contract_analysis", a.protocol), ("runtime_validation", a.runtime),
      ("fork_validation", a.fork), ("differential_validation", a.differential), ("symbolic_execution", a.stalled),
      ("fuzzing", a.known), ("test_execution", a.encoded), ("static_analysis", true), ("fuzzing", true)], e) == Choice(a, e)
  {
    hide FirstWanted;
    ghost var r8 := [("static_analysis", true), ("fuzzing", true)];
    ghost var r5 := [("symbolic_execution", a.stalled), ("fuzzing", a.known), ("test_execution", a.encoded)] + r8;
    LastTwo(e);
    NextThree("symbolic_execution", a.stalled, "fuzzing", a.known, "test_execution", a.encoded, r8, e);
    ghost var r2 :=
      [("runtime_validation", a.runtime), ("fork_validation", a.fork), ("differential_validation", a.differential)] + r5;
    NextThree("runtime_validation", a.runtime, "fork_validation", a.fork, "differential_validation", a.differential, r5, e);
    ghost var r1 := [("cross_contract_analysis", a.protocol)] + r2;
    WantedStep("cross_contract_analysis", a.protocol, r2, e);
    WantedStep("economic_simulation", a.economic, r1, e);
    assert [
      ("economic_simulation", a.economic), ("cross_contract_analysis", a.protocol), ("runtime_validation", a.runtime),
      ("fork_validation", a.fork), ("differential_validation", a.differential), ("symbolic_execution", a.stalled),
      ("fuzzing", a.known), ("test_execution", a.encoded), ("static_analysis", true), ("fuzzing", true)]
      == [("economic_simulation", a.economic)] + r1;
  }

  lemma LastTwo(e: seq<string>)
    ensures FirstWanted([("static_analysis", true), ("fuzzing", true)], e) ==
      if "static_analysis" !in e then "static_analysis" else if "fuzzing" !in e then "fuzzing" else "static_analysis"
  {
    hide FirstWanted;
    NothingWanted([], e);
    WantedStep("fuzzing", true, [], e);
    WantedStep("static_analysis", true, [("fuzzing", true)], e);
    assert [("fuzzing", true)] == [("fuzzing", true)] + [];
    assert [("static_analysis", true), ("fuzzing", true)] == [("static_analysis", true)] + [("fuzzing", true)];
  }

  lemma NextThree(a: string, p: bool, b: string, q: bool, c: string, r: bool, rest: seq<(string, bool)>, e: seq<string>)
    ensures FirstWanted([(a, p), (b, q), (c, r)] + rest, e) ==
      if p && a !in e then a else if q && b !in e then b else if r && c !in e then c else FirstWanted(rest, e)
  {
    hide FirstWanted;
    WantedStep(c, r, rest, e);
    WantedStep(b, q, [(c, r)] + rest, e);
    WantedStep(a, p, [(b, q)] + ([(c, r)] + rest), e);
    assert [(a, p), (b, q), (c, r)] + rest == [(a, p)] + ([(b, q)] + ([(c, r)] + rest));
  }

  lemma MissingIs(request: Request, f: Feedback, a: Asked)
    requires a.economic == (Get(request.extra, "economic") == "true" || Get(request.extra, "source") == "economic")
    requires a.protocol == (Get(request.extra, "protocol") == "true" || Get(request.extra, "source") == "protocol")
    requires a.runtime == (Get(request.extra, "runtime") == "true" || Get(request.extra, "source") == "runtime")
    requires a.fork == (Get(request.extra, "fork") == "true" || Get(request.extra, "source") == "fork")
    requires a.differential ==
             (Get(request.extra, "differential") == "true" || Get(request.extra, "source") == "differential")
    requires a.stalled == (f.stagnating || f.difficult || request.difficult)
    requires a.known == (Get(request.extra, "source") == "static_finding" || request.campaignId != "")
    requires a.encoded == (Get(request.extra, "property") == "encoded")
    ensures MissingCapability(request, f) == Choice(a, f.exercised)
  {
    hide Get;
  }

  lemma NothingWanted(w: seq<(string, bool)>, exercised: seq<string>)
    requires w == []
    ensures FirstWanted(w, exercised) == "static_analysis"
  {
  }

  // ----- orders ---------------------------------------------------------------------------------------------------

  /** The order of every language but Solidity. */
  lemma OtherOrders(request: Request, f: Feedback)
    requires request.language != "solidity"
    ensures OrderOf(request, f) ==
      if request.language == "c" || request.language == "cpp" then ["bugforge-static", "native-fuzz", "sanitizer"]
      else if request.language == "go" then ["bugforge-static", "go-test"]
      else if request.language == "rust" then ["bugforge-static", "cargo-test"]
      else if request.language == "java" then ["bugforge-static", "jazzer", "property"]
      else if request.language == "python" then ["bugforge-static", "property", "pytest"]
      else ["bugforge-static"]
  {
    hide OrderFor, MissingCapability;
  }

  /** The preferred order of Solidity, and which of its engines are static. */
  lemma SolidityParts()
    ensures SOLIDITY_ORDER == ["bugforge-static", "slither", "foundry", "echidna", "medusa", "ityfuzz", "halmos", "wake"]
    ensures Keep(SOLIDITY_ORDER, STATIC_ENGINES, true) == ["bugforge-static", "slither", "wake"]
    ensures Keep(SOLIDITY_ORDER, STATIC_ENGINES, false) == ["foundry", "echidna", "medusa", "ityfuzz", "halmos"]
  {
  }

  /** What runs at run time first, in the order that the wanted capability asks for. */
  lemma RuntimeOrders()
    ensures var runtime := ["foundry", "echidna", "medusa", "ityfuzz", "halmos"];
            && Collect(RUNTIME_FRONT + runtime, runtime, []) == ["ityfuzz", "echidna", "medusa", "foundry", "halmos"]
            && Collect(["halmos"] + RUNTIME_FRONT + runtime, runtime, []) ==
               ["halmos", "ityfuzz", "echidna", "medusa", "foundry"]
  {
    FrontIs();
    var runtime := ["foundry", "echidna", "medusa", "ityfuzz", "halmos"];
    hide Collect;
    CollectFront(["ityfuzz", "echidna", "medusa", "foundry", "halmos"], runtime, runtime);
    CollectFront(["halmos", "ityfuzz", "echidna", "medusa", "foundry"], ["halmos"] + runtime, runtime);
    assert ["halmos"] + RUNTIME_FRONT + runtime == ["halmos", "ityfuzz", "echidna", "medusa", "foundry"] + (["halmos"] + runtime);
  }

  lemma FrontIs()
    ensures RUNTIME_FRONT == ["ityfuzz", "echidna", "medusa", "foundry", "halmos"]
    ensures DistinctIds(RUNTIME_FRONT) && DistinctIds(["halmos", "ityfuzz", "echidna", "medusa", "foundry"])
  {
    NamesDiffer();
    assert "ityfuzz"[0] == 'i' && "echidna"[0] == 'e' && "medusa"[0] == 'm' && "foundry"[0] == 'f' && "halmos"[0] == 'h';
  }

  /** A front that holds every allowed engine once is what is collected. */
  lemma CollectFront(front: seq<string>, rest: seq<string>, allowed: seq<string>)
    requires DistinctIds(front) && (forall id :: id in front ==> id in allowed) && forall id :: id in rest ==> id in front
    ensures Collect(front + rest, allowed, []) == front
  {
    CollectOn(front, front + rest, allowed, 0);
  }

  lemma {:induction false} CollectOn(front: seq<string>, all: seq<string>, allowed: seq<string>, k: nat)
    requires DistinctIds(front) && k <= |all| && |front| <= |all| && all[..|front|] == front
    requires forall id :: id in front ==> id in allowed
    requires forall j :: |front| <= j < |all| ==> all[j] in front
    ensures Collect(all[k..], allowed, if k <= |front| then front[..k] else front) == front
    decreases |all| - k
  {
    if k < |all| {
      assert all[k..][1..] == all[k + 1..];
      CollectOn(front, all, allowed, k + 1);
      if k < |front| {
        assert front[k] == all[k] && front[..k + 1] == front[..k] + [front[k]];
      } else {
        assert front[..|front|] == front;
      }
    } else {
      assert front[..|front|] == front;
    }
  }

  /** The orders of Solidity for each missing capability. */
  lemma SolidityOrders(request: Request, f: Feedback, needed: string)
    requires request.language == "solidity" && needed == MissingCapability(request, f)
    ensures OrderOf(request, f) ==
      if needed == "economic_simulation" then
        ["bugforge-economic", "bugforge-static", "slither", "foundry", "echidna", "medusa", "ityfuzz", "halmos", "wake"]
      else if needed == "cross_contract_analysis" then
        ["bugforge-protocol", "bugforge-static", "slither", "foundry", "echidna", "medusa", "ityfuzz", "halmos", "wake"]
      else if needed == "runtime_validation" || needed == "fork_validation" || needed == "differential_validation" then
        ["bugforge-runtime", "bugforge-static", "slither", "foundry", "echidna", "medusa", "ityfuzz", "halmos", "wake"]
      else if needed == "test_execution" then
        ["foundry", "bugforge-static", "slither", "echidna", "medusa", "ityfuzz", "halmos", "wake"]
      else if needed == "fuzzing" then
        ["ityfuzz", "echidna", "medusa", "foundry", "halmos", "bugforge-static", "slither", "wake"]
      else if needed == "symbolic_execution" then
        ["halmos", "ityfuzz", "echidna", "medusa", "foundry", "bugforge-static", "slither", "wake"]
      else
        ["bugforge-static", "slither", "foundry", "echidna", "medusa", "ityfuzz", "halmos", "wake"]
  {
    hide Keep, Collect, STATIC_ENGINES, RUNTIME_FRONT, SOLIDITY_ORDER, MissingCapability;
    SolidityParts();
    RuntimeOrders();
    KeepOthers("bugforge-economic");
    KeepOthers("bugforge-protocol");
    KeepOthers("bugforge-runtime");
    KeepAllBut();
  }

  lemma KeepOthers(id: string)
    requires id == "bugforge-economic" || id == "bugforge-protocol" || id == "bugforge-runtime"
    ensures Keep(SOLIDITY_ORDER, {id}, false) == SOLIDITY_ORDER
  {
    assert "bugforge-economic"[9] == 'e' && "bugforge-protocol"[9] == 'p' && "bugforge-runtime"[9] == 'r';
    assert "bugforge-static"[9] == 's';
    assert id !in SOLIDITY_ORDER;
    KeepAll(SOLIDITY_ORDER, id);
  }

  lemma {:induction false} KeepAll(ids: seq<string>, id: string)
    requires id !in ids
    ensures Keep(ids, {id}, false) == ids
  {
    if ids != [] { KeepAll(ids[1..], id); }
  }

  lemma KeepAllBut()
    ensures Keep(SOLIDITY_ORDER, {"foundry"}, false) ==
            ["bugforge-static", "slither", "echidna", "medusa", "ityfuzz", "halmos", "wake"]
  {
  }

  // ----- what a result teaches ------------------------------------------------------------------------------------

  /** The capability that an engine is credited with when its result names none. */
  lemma LabelIs(id: string)
    ensures CapabilityLabel(id) ==
      if id == "bugforge-economic" then "economic_simulation"
      else if id == "bugforge-protocol" then "cross_contract_analysis"
      else if id == "bugforge-runtime" then "runtime_validation"
      else if id == "ityfuzz" || id == "echidna" || id == "medusa" then "fuzzing"
      else if id == "halmos" then "symbolic_execution"
      else if id == "foundry" then "test_execution"
      else if id == "bugforge-static" || id == "slither" || id == "wake" then "static_analysis"
      else ""
  {
  }

  /** A result is evidence only if its engine ran: of a failure, only if it executed. */
  lemma ExercisedIff(r: DynamicResult)
    ensures var ran :=
              || r.status == Ingested || r.status == Interesting || r.status == Executed
              || (r.executed && (r.status == Failed || r.status == TimedOut || r.status == ToolFailure));
            && (!ran ==> ExercisedLabel(r) == "")
            && (ran && r.named in {
                  "economic_simulation", "cross_contract_analysis", "runtime_validation", "fork_validation",
                  "differential_validation", "bounty_context_analysis", "caller_context_analysis",
                  "oracle_quality_analysis", "proof_binding_analysis", "account_abstraction_analysis",
                  "accounting_analysis", "compiler_advisory_analysis", "compiler_differential_validation",
                  "vfcs_generation", "static_analysis", "fuzzing", "symbolic_execution", "test_execution"} ==>
                  ExercisedLabel(r) == r.named)
            && (ran && r.named == "" ==> ExercisedLabel(r) == CapabilityLabel(r.engine))
  {
    hide CapabilityLabel;
  }

  /** What is known after a result, field by field. */
  lemma LearnedFeedback(k: Knowledge, r: DynamicResult, request: Request, maxRounds: int)
    ensures var grew := Growth(k.seen, r, request);
            var f, g := k.feedback, Learn(k, r, request, maxRounds).feedback;
            && g.rounds == f.rounds + 1 && g.transitions == f.transitions
            && g.crashes == f.crashes + (if r.crash then 1 else 0)
            && g.assertionFailures == f.assertionFailures + (if r.assertion then 1 else 0)
            && (g.newCoverage <==> f.newCoverage || grew == Some(true))
            && (g.stagnating <==> (f.stagnating && grew != Some(true)) || (grew == Some(false) && r.executed))
            && (g.difficult <==> f.difficult || (f.rounds + 1 >= maxRounds && g.stagnating && !g.newCoverage))
            && (forall l :: l in g.exercised <==> l in f.exercised || (l != "" && l == ExercisedLabel(r)))
  {
    hide ExercisedLabel, Growth, SeedsOf, CoverageKey;
  }

  /** Seeds come from minimised inputs only. */
  lemma LearnedSeeds(k: Knowledge, r: DynamicResult, request: Request, maxRounds: int)
    ensures var grew := Growth(k.seen, r, request);
            var before, after := k.corpus, Learn(k, r, request, maxRounds).corpus;
            && (CoverageSeed in after <==> CoverageSeed in before || (r.minimized && grew == Some(true)))
            && (CrashSeed in after <==> CrashSeed in before || (r.minimized && r.crash))
            && (ItyfuzzSeed in after <==> ItyfuzzSeed in before || (r.minimized && r.engine == "ityfuzz" && r.verifiedInput))
            && (SymbolicSeed in after <==> SymbolicSeed in before || (r.minimized && r.symbolicInput))
  {
    hide Noted, Growth, CoverageKey;
  }

  /** A claim decides; without one, a number grew if it is greater than the last one under its key. */
  lemma GrowthIff(seen: map<string, real>, r: DynamicResult, request: Request)
    ensures var key := CoverageKey(r, request);
            && (r.explicitCoverage.Some? ==> Growth(seen, r, request) == r.explicitCoverage)
            && (r.explicitCoverage.None? ==>
                  (Growth(seen, r, request) == Some(true) <==>
                     r.percent.Some? && key in seen && seen[key] < r.percent.value)
                  && (Growth(seen, r, request) == Some(false) <==>
                        r.percent.Some? && key in seen && r.percent.value <= seen[key]))
  {
    hide CoverageKey;
  }

  // ----- coverage keys ----------------------------------------------------------------------------------------------

  /** What a coverage number is filed under. */
  function KeyParts(r: DynamicResult, request: Request): (parts: seq<string>)
    ensures |parts| == 11
  {
    [if Get(request.extra, "project_id") != "" then Get(request.extra, "project_id") else request.root,
     Get(request.extra, "source_snapshot"), Get(request.extra, "compiler_configuration"), request.root, request.target,
     request.sourceFile, request.function_, request.contract, request.campaignId, r.engine, Get(request.extra, "mode")]
  }

  lemma CoverageKeyIs(r: DynamicResult, request: Request)
    ensures CoverageKey(r, request) == TextSplit.Join(KeyParts(r, request), '\n')
  {
    hide Get;
  }

  lemma FirstBreak(a: string, b: string, s: string, t: string, sep: char)
    requires sep !in a && sep !in b && a + [sep] + s == b + [sep] + t
    ensures a == b && s == t
  {
    var x, y := a + [sep] + s, b + [sep] + t;
    assert x[|a|] == sep && y[|b|] == sep;
    assert x[..|a|] == a && y[..|b|] == b;
    assert x[|a| + 1..] == s && y[|b| + 1..] == t;
  }

  lemma {:induction false} JoinIsInjective(a: seq<string>, b: seq<string>, sep: char)
    requires |a| == |b| && (forall k :: 0 <= k < |a| ==> sep !in a[k]) && (forall k :: 0 <= k < |b| ==> sep !in b[k])
    requires TextSplit.Join(a, sep) == TextSplit.Join(b, sep)
    ensures a == b
  {
    if |a| == 1 {
      assert a == [a[0]] && b == [b[0]];
    } else if |a| > 1 {
      FirstBreak(a[0], b[0], TextSplit.Join(a[1..], sep), TextSplit.Join(b[1..], sep), sep);
      JoinIsInjective(a[1..], b[1..], sep);
      assert a == [a[0]] + a[1..] && b == [b[0]] + b[1..];
    }
  }

  /**
   Numbers are compared exactly if they agree in project, build, compiler, repository, target, file, function, contract,
   campaign, engine and mode, as long as none of these holds a line break.
   */
  lemma SameKeyIff(r: DynamicResult, request: Request, s: DynamicResult, other: Request)
    requires forall k :: 0 <= k < 11 ==> '\n' !in KeyParts(r, request)[k] && '\n' !in KeyParts(s, other)[k]
    ensures CoverageKey(r, request) == CoverageKey(s, other) <==>
      && request.root == other.root && request.target == other.target && request.sourceFile == other.sourceFile
      && request.function_ == other.function_ && request.contract == other.contract
      && request.campaignId == other.campaignId && r.engine == s.engine
      && Get(request.extra, "source_snapshot") == Get(other.extra, "source_snapshot")
      && Get(request.extra, "compiler_configuration") == Get(other.extra, "compiler_configuration")
      && Get(request.extra, "mode") == Get(other.extra, "mode")
      && (if Get(request.extra, "project_id") != "" then Get(request.extra, "project_id") else request.root) ==
         (if Get(other.extra, "project_id") != "" then Get(other.extra, "project_id") else other.root)
  {
    hide Get, CoverageKey;
    CoverageKeyIs(r, request);
    CoverageKeyIs(s, other);
    var a, b := KeyParts(r, request), KeyParts(s, other);
    if CoverageKey(r, request) == CoverageKey(s, other) { JoinIsInjective(a, b, '\n'); }
    assert a == b <==> forall k :: 0 <= k < 11 ==> a[k] == b[k];
  }

  /** With a line break in one of them, different targets share a key: whatever stands behind the break can move on. */
  lemma KeysCollide(r: DynamicResult, request: Request, p: string, q: string)
    requires request.target == p + "\n" + q
    ensures var other := request.(target := p, sourceFile := q + "\n" + request.sourceFile);
            other.target != request.target && CoverageKey(r, other) == CoverageKey(r, request)
  {
    hide Get, CoverageKey;
    var other := request.(target := p, sourceFile := q + "\n" + request.sourceFile);
    CoverageKeyIs(r, request);
    CoverageKeyIs(r, other);
    var a, b := KeyParts(r, request), KeyParts(r, other);
    JoinAround(a[..4], a[4..6], a[6..]);
    JoinAround(b[..4], b[4..6], b[6..]);
    assert a == a[..4] + a[4..6] + a[6..] && b == b[..4] + b[4..6] + b[6..];
    assert a[..4] == b[..4] && a[6..] == b[6..];
    JoinTwo(p + "\n" + q, request.sourceFile);
    JoinTwo(p, q + "\n" + request.sourceFile);
    assert a[4..6] == [p + "\n" + q, request.sourceFile] && b[4..6] == [p, q + "\n" + request.sourceFile];
    assert p + "\n" + q + "\n" + request.sourceFile == p + "\n" + (q + "\n" + request.sourceFile);
  }

  lemma JoinTwo(a: string, b: string)
    ensures TextSplit.Join([a, b], '\n') == a + "\n" + b
  {
    assert [a, b][1..] == [b];
  }

  lemma JoinAround(a: seq<string>, b: seq<string>, c: seq<string>)
    requires a != [] && b != [] && c != []
    ensures TextSplit.Join(a + b + c, '\n') ==
            TextSplit.Join(a, '\n') + ['\n'] + TextSplit.Join(b, '\n') + ['\n'] + TextSplit.Join(c, '\n')
  {
    TextSplit.JoinConcat(a + b, c, '\n');
    TextSplit.JoinConcat(a, b, '\n');
  }

  // ----- engines by identifier ----------------------------------------------------------------------------------------

  /** A table of engines keeps the last of those that share an identifier. */
  lemma {:induction false} ByIdIsLast(engines: seq<Engine>, id: string)
    ensures ById(engines, id).None? <==> forall k :: 0 <= k < |engines| ==> engines[k].id != id
    ensures ById(engines, id).Some? ==>
              exists k :: 0 <= k < |engines| && ById(engines, id) == Some(engines[k])
                          && forall j :: k < j < |engines| ==> engines[j].id != id
  {
    if engines != [] && engines[|engines| - 1].id != id {
      var front := engines[..|engines| - 1];
      ByIdIsLast(front, id);
      assert forall k :: 0 <= k < |front| ==> front[k] == engines[k];
    }
  }

  /** A search through the engines finds the first of them. */
  lemma {:induction false} FirstByIdIsFirst(engines: seq<Engine>, id: string)
    ensures FirstById(engines, id).None? <==> forall k :: 0 <= k < |engines| ==> engines[k].id != id
    ensures FirstById(engines, id).Some? ==>
              exists k :: 0 <= k < |engines| && FirstById(engines, id) == Some(engines[k])
                          && forall j :: 0 <= j < k ==> engines[j].id != id
  {
    if engines != [] && engines[0].id != id {
      var rest := engines[1..];
      FirstByIdIsFirst(rest, id);
      assert forall k :: 0 < k < |engines| ==> engines[k] == rest[k - 1];
      if FirstById(rest, id).Some? {
        var k :| 0 <= k < |rest| && FirstById(rest, id) == Some(rest[k]) && forall j :: 0 <= j < k ==> rest[j].id != id;
        assert rest[k] == engines[k + 1];
        forall j | 0 <= j < k + 1 ensures engines[j].id != id { if j > 0 { assert engines[j] == rest[j - 1]; } }
      }
    }
  }

  // ----- follow-ups and launches ------------------------------------------------------------------------------------

  /** Which engines a follow-up plans, in this order: symbolic execution, then one fuzzer. */
  lemma FollowupIs(engines: seq<Engine>, f: Feedback, corpus: set<Source>, request: Request)
    ensures var symbolic := f.difficult && ById(engines, "halmos").Some? && ("halmos", true) !in f.transitions;
            var seeded := SymbolicSeed in corpus && ById(engines, "foundry").Some?;
            var stuck := !seeded && f.stagnating && request.function_ != "" && ById(engines, "medusa").Some?;
            var d := FollowupOf(engines, f, corpus, request);
            && |d| == (if symbolic then 1 else 0) + (if seeded || stuck then 1 else 0)
            && (symbolic ==> d[0].engineId == "halmos"
                             && d[0].run == ById(engines, "halmos").value.available)
            && (seeded ==> d[|d| - 1].engineId == "foundry" && d[|d| - 1].run == ById(engines, "foundry").value.available)
            && (stuck ==> d[|d| - 1].engineId == "medusa")
  {
    hide ById;
    if ById(engines, "halmos").Some? { RunsIff(ById(engines, "halmos").value, request, f); }
    NamesDiffer();
    hide Decide;
  }

  /** The request of a follow-up engine: no campaign, difficult for symbolic execution, and fuzzing where it fuzzes. */
  lemma TargetedIs(request: Request, id: string, corpus: set<Source>)
    ensures var t := Targeted(request, id, corpus);
            && t == request.(difficult := t.difficult, campaignId := "", extra := t.extra)
            && (t.difficult <==> request.difficult || id == "halmos")
            && t.extra == if id == "medusa" || (id == "foundry" && SymbolicSeed in corpus)
                          then request.extra["mode" := "fuzz"] else request.extra
  {
  }

  /** Static analysers analyse a target, all others run a campaign; in a follow-up `halmos` always does. */
  lemma EntryIff(e: Engine, id: string)
    ensures EntryOf(Some(e)) == AnalyzeTarget <==> StaticAnalysis in e.capabilities
    ensures FollowupEntry(Some(e), id) == AnalyzeTarget <==> StaticAnalysis in e.capabilities && id != "halmos"
  {
  }
}
