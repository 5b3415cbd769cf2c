/**
 `backend/app/discovery/scheduler.py`: which engines a bounded campaign runs, in which order, and how many.

 Engines are opaque: a run returns some result.  The ghost field `executedReturned` counts the executed results the
 scheduler has ever handed out.
 */
module Scheduler {
  import opened Options
  import TextSplit

  datatype Capability = PlanningOnly | StaticAnalysis | Fuzzing | SymbolicExecution | TestExecution | OtherCapability(name: string)

  datatype Status = Planned | Unavailable | NotImplemented | Executed | Ingested | Interesting | Failed | TimedOut | ToolFailure | Unsupported

  datatype Source = CoverageSeed | CrashSeed | ItyfuzzSeed | SymbolicSeed

  datatype Engine = Engine(id: string, languages: set<string>, capabilities: set<Capability>, available: bool)

  datatype Request = Request(
    root: string, language: string, target: string, function_: string, contract: string, sourceFile: string,
    difficult: bool, framework: string, hasHarness: bool, campaignId: string, extra: map<string, string>)

  /** `percent` is absent when no comparable number was reported; `named` is the capability the result claims. */
  datatype DynamicResult = DynamicResult(
    engine: string, status: Status, executed: bool, crash: bool, assertion: bool, minimized: bool,
    explicitCoverage: Option<bool>, percent: Option<real>, named: string, verifiedInput: bool, symbolicInput: bool)

  datatype Decision = Decision(engineId: string, run: bool, code: string)

  datatype Feedback = Feedback(
    stagnating: bool, difficult: bool, newCoverage: bool, crashes: nat, assertionFailures: nat, rounds: nat,
    transitions: seq<(string, bool)>, exercised: seq<string>)

  // ----- preferred order --------------------------------------------------------------------------------------------

  const SOLIDITY_ORDER: seq<string> :=
    ["bugforge-static", "slither", "foundry", "echidna", "medusa", "ityfuzz", "halmos", "wake"]
  const RUNTIME_FRONT: seq<string> := ["ityfuzz", "echidna", "medusa", "foundry", "halmos"]
  const STATIC_ENGINES: set<string> := {"bugforge-static", "slither", "wake"}

  function LanguageOrder(language: string): seq<string> {
    if language == "solidity" then SOLIDITY_ORDER
    else if language in {"c", "cpp"} then ["bugforge-static", "native-fuzz", "sanitizer"]
    else if language == "go" then ["bugforge-static", "go-test"]
    else if language == "rust" then ["bugforge-static", "cargo-test"]
    else if language == "java" then ["bugforge-static", "jazzer", "property"]
    else if language == "python" then ["bugforge-static", "property", "pytest"]
    else ["bugforge-static"]
  }

  function Get(m: map<string, string>, key: string): string {
    if key in m then m[key] else ""
  }

  predicate Requested(request: Request, key: string) {
    Get(request.extra, key) == "true" || Get(request.extra, "source") == key
  }

  /** `missing_capability`. */
  function MissingCapability(request: Request, f: Feedback): string {
    if Requested(request, "economic") && "economic_simulation" !in f.exercised then "economic_simulation"
    else if Requested(request, "protocol") && "cross_contract_analysis" !in f.exercised then "cross_contract_analysis"
    else if Requested(request, "runtime") && "runtime_validation" !in f.exercised then "runtime_validation"
    else if Requested(request, "fork") && "fork_validation" !in f.exercised then "fork_validation"
    else if Requested(request, "differential") && "differential_validation" !in f.exercised then "differential_validation"
    else if (f.stagnating || f.difficult || request.difficult) && "symbolic_execution" !in f.exercised then "symbolic_execution"
    else if (Get(request.extra, "source") == "static_finding" || request.campaignId != "") && "fuzzing" !in f.exercised then "fuzzing"
    else if Get(request.extra, "property") == "encoded" && "test_execution" !in f.exercised then "test_execution"
    else if "static_analysis" !in f.exercised then "static_analysis"
    else if "fuzzing" !in f.exercised then "fuzzing"
    else "static_analysis"
  }

  function Specialized(needed: string): string {
    if needed == "economic_simulation" then "bugforge-economic"
    else if needed == "cross_contract_analysis" then "bugforge-protocol"
    else if needed in {"runtime_validation", "fork_validation", "differential_validation"} then "bugforge-runtime"
    else ""
  }

  /** The members of `ids` that are in `these`, or those that are not, in order. */
  function Keep(ids: seq<string>, these: set<string>, inside: bool): seq<string> {
    if ids == [] then [] else (if (ids[0] in these) == inside then [ids[0]] else []) + Keep(ids[1..], these, inside)
  }

  /** The members of `ids` that are in `allowed` and not yet in `ordered`, each once, behind `ordered`. */
  function Collect(ids: seq<string>, allowed: seq<string>, ordered: seq<string>): seq<string> {
    if ids == [] then ordered
    else Collect(ids[1..], allowed, if ids[0] !in ordered && ids[0] in allowed then ordered + [ids[0]] else ordered)
  }

  /** The order for a solidity request that lacks `needed`. */
  function OrderFor(base: seq<string>, needed: string): seq<string> {
    if Specialized(needed) != "" then
      var first := Specialized(needed);
      [first] + Keep(base, {first}, false)
    else if needed == "test_execution" then ["foundry"] + Keep(base, {"foundry"}, false)
    else if needed !in {"fuzzing", "symbolic_execution"} then base
    else
      var runtime := Keep(base, STATIC_ENGINES, false);
      var front := if needed == "symbolic_execution" then ["halmos"] + RUNTIME_FRONT else RUNTIME_FRONT;
      Collect(front + runtime, runtime, []) + Keep(base, STATIC_ENGINES, true)
  }

  /** `_engine_order_for`. */
  method EngineOrder(request: Request, f: Feedback) returns (order: seq<string>)
    ensures order == OrderOf(request, f)
    ensures DistinctIds(order)
  {
    hide MissingCapability, Specialized, LanguageOrder, Keep;
    OrderIsDistinct(request, f);
    var base := LanguageOrder(request.language);
    if request.language != "solidity" { return base; }
    SolidityBase();
    var needed := MissingCapability(request, f);
    var specialized := Specialized(needed);
    if specialized != "" { return [specialized] + Keep(base, {specialized}, false); }
    if needed == "test_execution" { return ["foundry"] + Keep(base, {"foundry"}, false); }
    if needed !in {"fuzzing", "symbolic_execution"} { return base; }
    var runtime := Keep(base, STATIC_ENGINES, false);
    var front := if needed == "symbolic_execution" then ["halmos"] + RUNTIME_FRONT else RUNTIME_FRONT;
    var all := front + runtime;
    var ordered: seq<string> := [];
    assert all[0..] == all;
    for k := 0 to |all|
      invariant Collect(all[k..], runtime, ordered) == Collect(all, runtime, [])
    {
      assert all[k..][1..] == all[k + 1..];
      if all[k] !in ordered && all[k] in runtime { ordered := ordered + [all[k]]; }
    }
    return ordered + Keep(base, STATIC_ENGINES, true);
  }

  lemma SolidityBase()
    ensures LanguageOrder("solidity") == SOLIDITY_ORDER
  {
  }

  function OrderOf(request: Request, f: Feedback): seq<string> {
    if request.language != "solidity" then LanguageOrder(request.language)
    else OrderFor(SOLIDITY_ORDER, MissingCapability(request, f))
  }

  predicate DistinctIds(ids: seq<string>) {
    forall j, k :: 0 <= j < k < |ids| ==> ids[j] != ids[k]
  }

  lemma {:induction false} KeepDistinct(ids: seq<string>, these: set<string>, inside: bool)
    requires DistinctIds(ids)
    ensures DistinctIds(Keep(ids, these, inside))
    ensures forall id :: id in Keep(ids, these, inside) <==> id in ids && (id in these) == inside
  {
    if ids != [] {
      KeepDistinct(ids[1..], these, inside);
      HeadOrTail(ids);
    }
  }

  lemma OneDistinct(id: string)
    ensures DistinctIds([id])
  {
  }

  lemma HeadOrTail(ids: seq<string>)
    requires ids != []
    ensures forall id :: id in ids <==> id == ids[0] || id in ids[1..]
  {
    assert ids == [ids[0]] + ids[1..];
  }

  lemma {:induction false} CollectDistinct(ids: seq<string>, allowed: seq<string>, ordered: seq<string>)
    requires DistinctIds(ordered)
    ensures DistinctIds(Collect(ids, allowed, ordered))
    ensures forall id :: id in Collect(ids, allowed, ordered) <==> id in ordered || (id in ids && id in allowed)
    decreases |ids|
  {
    if ids != [] {
      OneDistinct(ids[0]);
      hide DistinctIds;
      var next := if ids[0] !in ordered && ids[0] in allowed then ordered + [ids[0]] else ordered;
      if next != ordered { AppendDistinct(ordered, [ids[0]]); }
      CollectDistinct(ids[1..], allowed, next);
      HeadOrTail(ids);
    }
  }

  lemma AppendDistinct(a: seq<string>, b: seq<string>)
    requires DistinctIds(a) && DistinctIds(b)
    requires forall id :: id in a ==> id !in b
    ensures DistinctIds(a + b)
  {
    forall j, k | 0 <= j < k < |a + b| ensures (a + b)[j] != (a + b)[k] {
      if j < |a| <= k { assert a[j] in a && b[k - |a|] in b; }
    }
  }

  /** Reordering adds at most the wanted engine, drops none and repeats none. */
  lemma OrderForIsPermutation(base: seq<string>, needed: string)
    requires DistinctIds(base)
    ensures DistinctIds(OrderFor(base, needed))
    ensures forall id :: id in base ==> id in OrderFor(base, needed)
    ensures forall id :: id in OrderFor(base, needed) ==>
              id in base || id == Specialized(needed) || (needed == "test_execution" && id == "foundry")
  {
    hide Keep, Collect, Specialized, STATIC_ENGINES, RUNTIME_FRONT;
    if Specialized(needed) != "" {
      var first := Specialized(needed);
      KeepDistinct(base, {first}, false);
      AppendDistinct([first], Keep(base, {first}, false));
    } else if needed == "test_execution" {
      KeepDistinct(base, {"foundry"}, false);
      AppendDistinct(["foundry"], Keep(base, {"foundry"}, false));
    } else if needed in {"fuzzing", "symbolic_execution"} {
      var runtime := Keep(base, STATIC_ENGINES, false);
      var front := if needed == "symbolic_execution" then ["halmos"] + RUNTIME_FRONT else RUNTIME_FRONT;
      KeepDistinct(base, STATIC_ENGINES, false);
      KeepDistinct(base, STATIC_ENGINES, true);
      CollectDistinct(front + runtime, runtime, []);
      AppendDistinct(Collect(front + runtime, runtime, []), Keep(base, STATIC_ENGINES, true));
    }
  }

  lemma LanguageOrderDistinct(language: string)
    ensures DistinctIds(LanguageOrder(language)) && DistinctIds(SOLIDITY_ORDER)
  {
  }

  lemma OrderIsDistinct(request: Request, f: Feedback)
    ensures DistinctIds(OrderOf(request, f))
  {
    hide OrderFor, MissingCapability, LanguageOrder;
    LanguageOrderDistinct(request.language);
    OrderForIsPermutation(SOLIDITY_ORDER, MissingCapability(request, f));
  }

  // ----- feedback ---------------------------------------------------------------------------------------------------

  const CAPABILITY_LABELS: set<string> := {
    "economic_simulation", "cross_contract_analysis", "runtime_validation", "fork_validation",
    "differential_validation", "bounty_context_analysis", "caller_context_analysis", "oracle_quality_analysis",
    "proof_binding_analysis", "account_abstraction_analysis", "accounting_analysis", "compiler_advisory_analysis",
    "compiler_differential_validation", "vfcs_generation", "static_analysis", "fuzzing", "symbolic_execution",
    "test_execution"}

  function CapabilityLabel(id: string): string {
    if id == "bugforge-economic" then "economic_simulation"
    else if id == "bugforge-protocol" then "cross_contract_analysis"
    else if id == "bugforge-runtime" then "runtime_validation"
    else if id in {"ityfuzz", "echidna", "medusa"} then "fuzzing"
    else if id == "halmos" then "symbolic_execution"
    else if id == "foundry" then "test_execution"
    else if id in STATIC_ENGINES then "static_analysis"
    else ""
  }

  /** `_exercised_label`: what did not run is not evidence. */
  function ExercisedLabel(r: DynamicResult): string {
    if !(r.status in {Ingested, Interesting, Executed} || (r.executed && r.status in {Failed, TimedOut, ToolFailure})) then ""
    else if r.named in CAPABILITY_LABELS then r.named
    else CapabilityLabel(r.engine)
  }

  function Exercised(f: Feedback, r: DynamicResult): Feedback {
    var shown := ExercisedLabel(r);
    f.(rounds := f.rounds + 1,
       exercised := if shown != "" && shown !in f.exercised then f.exercised + [shown] else f.exercised)
  }

  function Compared(f: Feedback, r: DynamicResult, grew: Option<bool>): Feedback {
    if grew == Some(true) then f.(newCoverage := true, stagnating := false)
    else if grew == Some(false) && r.executed then f.(stagnating := true)
    else f
  }

  function Counted(f: Feedback, r: DynamicResult): Feedback {
    f.(crashes := f.crashes + (if r.crash then 1 else 0),
       assertionFailures := f.assertionFailures + (if r.assertion then 1 else 0))
  }

  function Judged(f: Feedback, maxRounds: int): Feedback {
    if f.rounds >= maxRounds && f.stagnating && !f.newCoverage then f.(difficult := true) else f
  }

  /** The feedback after a result whose coverage grew, did not grow, or is unknown. */
  function Noted(f: Feedback, r: DynamicResult, grew: Option<bool>, maxRounds: int): Feedback {
    Judged(Counted(Compared(Exercised(f, r), r, grew), r), maxRounds)
  }

  /** The kinds of seed a result contributes. */
  function SeedsOf(r: DynamicResult, grew: Option<bool>): set<Source> {
    if !r.minimized then {}
    else (if grew == Some(true) then {CoverageSeed} else {})
         + (if r.crash then {CrashSeed} else {})
         + (if r.engine == "ityfuzz" && r.verifiedInput then {ItyfuzzSeed} else {})
         + (if r.symbolicInput then {SymbolicSeed} else {})
  }

  /** `coverage_key`: only numbers of the same project, build, target, campaign, engine and mode are compared. */
  function CoverageKey(r: DynamicResult, request: Request): string {
    var project := Get(request.extra, "project_id");
    TextSplit.Join([if project != "" then project else request.root, Get(request.extra, "source_snapshot"),
                    Get(request.extra, "compiler_configuration"), request.root, request.target, request.sourceFile,
                    request.function_, request.contract, request.campaignId, r.engine, Get(request.extra, "mode")], '\n')
  }

  /** What the scheduler has learned: seeds, feedback and the last coverage number under each key. */
  datatype Knowledge = Knowledge(corpus: set<Source>, feedback: Feedback, seen: map<string, real>)

  /** Whether coverage grew; unknown without a claim and without an earlier number to compare with. */
  function Growth(seen: map<string, real>, r: DynamicResult, request: Request): Option<bool> {
    if r.explicitCoverage.Some? then r.explicitCoverage
    else if r.percent.Some? && CoverageKey(r, request) in seen then Some(r.percent.value > seen[CoverageKey(r, request)])
    else None
  }

  /** One result taken in. */
  function Learn(k: Knowledge, r: DynamicResult, request: Request, maxRounds: int): Knowledge {
    var grew := Growth(k.seen, r, request);
    Knowledge(k.corpus + SeedsOf(r, grew), Noted(k.feedback, r, grew, maxRounds),
              if r.explicitCoverage.None? && r.percent.Some? then k.seen[CoverageKey(r, request) := r.percent.value] else k.seen)
  }

  /** The results of one request taken in, in order. */
  function LearnAll(k: Knowledge, results: seq<DynamicResult>, request: Request, maxRounds: int): Knowledge {
    if results == [] then k
    else
      var last := |results| - 1;
      Learn(LearnAll(k, results[..last], request, maxRounds), results[last], request, maxRounds)
  }

  // ----- decisions --------------------------------------------------------------------------------------------------

  /** `_decide`. */
  function Decide(e: Engine, request: Request, f: Feedback): (d: Decision)
    ensures d.engineId == e.id
  {
    if request.language !in e.languages && e.languages != {} then Decision(e.id, false, "language")
    else if e.id == "wake" && Get(request.extra, "include_wake") != "true" then Decision(e.id, false, "optional")
    else if e.id in {"echidna", "medusa"} && !(request.function_ != "" || request.contract != "" || request.hasHarness) then
      Decision(e.id, false, "target")
    else if e.id == "halmos" && !(request.difficult || f.difficult) then Decision(e.id, false, "symbolic_hint")
    else if e.id == "foundry" && request.framework != "foundry" && !request.hasHarness then Decision(e.id, false, "framework")
    else if !e.available then Decision(e.id, false, "unavailable")
    else Decision(e.id, true, "selected")
  }

  /** The engine an id stands for where engines are looked up in a table: the last of those that share it. */
  function ById(engines: seq<Engine>, id: string): (e: Option<Engine>)
    ensures e.Some? ==> e.value.id == id && e.value in engines
  {
    if engines == [] then None
    else if engines[|engines| - 1].id == id then Some(engines[|engines| - 1])
    else ById(engines[..|engines| - 1], id)
  }

  /** `_engine`: the first of those that share the id. */
  function FirstById(engines: seq<Engine>, id: string): (e: Option<Engine>)
    ensures e.Some? ==> e.value.id == id && e.value in engines
  {
    if engines == [] then None
    else if engines[0].id == id then Some(engines[0])
    else FirstById(engines[1..], id)
  }

  function Notes(decisions: seq<Decision>): seq<(string, bool)> {
    seq(|decisions|, k requires 0 <= k < |decisions| => (decisions[k].engineId, decisions[k].run))
  }

  /** Ids of the engines that decisions let run. */
  function RunIds(decisions: seq<Decision>): seq<string> {
    if decisions == [] then []
    else (if decisions[0].run then [decisions[0].engineId] else []) + RunIds(decisions[1..])
  }

  lemma RunIdsCons(d: Decision, rest: seq<Decision>)
    ensures RunIds([d] + rest) == (if d.run then [d.engineId] else []) + RunIds(rest)
  {
    assert ([d] + rest)[1..] == rest;
  }

  lemma {:induction false} RunIdsAppend(a: seq<Decision>, d: Decision)
    ensures RunIds(a + [d]) == RunIds(a) + (if d.run then [d.engineId] else [])
  {
    if a == [] {
      assert a + [d] == [d] + [];
      RunIdsCons(d, []);
    } else {
      hide RunIds;
      assert a == [a[0]] + a[1..] && a + [d] == [a[0]] + (a[1..] + [d]);
      RunIdsAppend(a[1..], d);
      RunIdsCons(a[0], a[1..]);
      RunIdsCons(a[0], a[1..] + [d]);
    }
  }

  /** The decisions on `order`, in order, where `room` engines may still run. */
  ghost predicate Selection(engines: seq<Engine>, request: Request, f: Feedback, order: seq<string>, room: int,
    decisions: seq<Decision>)
  {
    && |decisions| == |order|
    && |RunIds(decisions)| <= (if room > 0 then room else 0)
    && forall k :: 0 <= k < |order| ==>
         && decisions[k].engineId == order[k]
         && match ById(engines, order[k])
            case None => decisions[k] == Decision(order[k], false, "unregistered")
            case Some(e) =>
              var wanted := Decide(e, request, f);
              if wanted.run && |RunIds(decisions[..k])| >= room then decisions[k] == Decision(order[k], false, "budget")
              else decisions[k] == wanted
  }

  /** Engines that run are distinct members of the order. */
  lemma {:induction false} RunIdsDistinct(order: seq<string>, decisions: seq<Decision>)
    requires |decisions| == |order| && DistinctIds(order)
    requires forall k :: 0 <= k < |order| ==> decisions[k].engineId == order[k]
    ensures DistinctIds(RunIds(decisions))
    ensures forall id :: id in RunIds(decisions) ==> id in order
  {
    if order != [] {
      RunIdsDistinct(order[1..], decisions[1..]);
      assert order == [order[0]] + order[1..];
      if decisions[0].run { AppendDistinct([order[0]], RunIds(decisions[1..])); }
    }
  }

  function ExecutedCount(results: seq<DynamicResult>): nat {
    if results == [] then 0 else (if results[|results| - 1].executed then 1 else 0) + ExecutedCount(results[..|results| - 1])
  }

  // ----- follow-ups -------------------------------------------------------------------------------------------------

  /** The engines a follow-up uses: symbolic execution once when stuck, then a fuzzer for what is left. */
  function FollowupOf(engines: seq<Engine>, f: Feedback, corpus: set<Source>, request: Request): seq<Decision> {
    var halmos := ById(engines, "halmos");
    var foundry, medusa := ById(engines, "foundry"), ById(engines, "medusa");
    (if f.difficult && halmos.Some? && ("halmos", true) !in f.transitions then
       var d := Decide(halmos.value, request, f);
       [if d.run then d else Decision("halmos", halmos.value.available, "")]
     else [])
    + (if SymbolicSeed in corpus && foundry.Some? then [Decision("foundry", foundry.value.available, "")]
       else if f.stagnating && request.function_ != "" && medusa.Some? then
         [Decide(medusa.value, request.(campaignId := "", hasHarness := true, extra := request.extra["mode" := "fuzz"]), f)]
       else [])
  }

  /** At most two engines, both registered, never the same one twice. */
  lemma FollowupIsShort(engines: seq<Engine>, f: Feedback, corpus: set<Source>, request: Request)
    ensures var d := FollowupOf(engines, f, corpus, request);
            && |d| <= 2 && |RunIds(d)| <= 2 && DistinctIds(RunIds(d))
            && (forall k :: 0 <= k < |d| ==> ById(engines, d[k].engineId).Some?)
  {
    hide Decide, ById;
    var d := FollowupOf(engines, f, corpus, request);
    assert "halmos"[0] == 'h' && "foundry"[0] == 'f' && "medusa"[0] == 'm';
    RunIdsDistinct(seq(|d|, k requires 0 <= k < |d| => d[k].engineId), d);
    RunIdsBound(d);
  }

  lemma RunIdsBound(d: seq<Decision>)
    ensures |RunIds(d)| <= |d|
  {
  }

  /** The request a follow-up engine gets; it carries no campaign. */
  function Targeted(request: Request, id: string, corpus: set<Source>): Request {
    var fuzz := (id == "foundry" && SymbolicSeed in corpus) || id == "medusa";
    request.(difficult := id == "halmos" || request.difficult, campaignId := "",
             extra := if fuzz then request.extra["mode" := "fuzz"] else request.extra)
  }

  /** The results of the engines `ids` taken in, each under the request its engine got. */
  function LearnFollowups(k: Knowledge, ids: seq<string>, results: seq<DynamicResult>, request: Request, maxRounds: int): Knowledge
    requires |ids| >= |results|
  {
    if results == [] then k
    else
      var last := |results| - 1;
      var before := LearnFollowups(k, ids, results[..last], request, maxRounds);
      Learn(before, results[last], Targeted(request, ids[last], before.corpus), maxRounds)
  }

  // ----- launches ---------------------------------------------------------------------------------------------------

  /** The two ways of starting an engine. */
  datatype Entry = AnalyzeTarget | StartCampaign

  datatype Launched = Launched(engineId: string, entry: Entry, request: Request)

  predicate IsStatic(e: Option<Engine>) {
    e.Some? && StaticAnalysis in e.value.capabilities
  }

  /** How `run_selected` and `run_engine` start an engine. */
  function EntryOf(e: Option<Engine>): Entry {
    if IsStatic(e) then AnalyzeTarget else StartCampaign
  }

  /** How `run_followup` does: `halmos` always runs a campaign. */
  function FollowupEntry(e: Option<Engine>, id: string): Entry {
    if IsStatic(e) && id != "halmos" then AnalyzeTarget else StartCampaign
  }

  /** The launches of the engines `ids` under one request. */
  function Launches(engines: seq<Engine>, ids: seq<string>, request: Request): seq<Launched> {
    seq(|ids|, k requires 0 <= k < |ids| => Launched(ids[k], EntryOf(ById(engines, ids[k])), request))
  }

  lemma LaunchesNext(engines: seq<Engine>, ids: seq<string>, id: string, request: Request)
    ensures Launches(engines, ids + [id], request) ==
            Launches(engines, ids, request) + [Launched(id, EntryOf(ById(engines, id)), request)]
  {
    hide ById, EntryOf;
  }

  lemma NoLaunches(engines: seq<Engine>, request: Request)
    ensures Launches(engines, [], request) == []
  {
  }

  lemma EntryIs(e: Option<Engine>)
    ensures EntryOf(e) == if IsStatic(e) then AnalyzeTarget else StartCampaign
  {
  }

  lemma NoResults(k: Knowledge, request: Request, maxRounds: int)
    ensures LearnAll(k, [], request, maxRounds) == k
  {
  }

  lemma NoCount()
    ensures ExecutedCount([]) == 0
  {
  }

  lemma CountNext(results: seq<DynamicResult>, r: DynamicResult)
    ensures ExecutedCount(results + [r]) == ExecutedCount(results) + (if r.executed then 1 else 0)
  {
    assert (results + [r])[..|results|] == results;
  }

  lemma ResultsNext(k: Knowledge, results: seq<DynamicResult>, r: DynamicResult, request: Request, maxRounds: int)
    ensures LearnAll(k, results + [r], request, maxRounds) == Learn(LearnAll(k, results, request, maxRounds), r, request, maxRounds)
  {
    hide Learn;
    assert (results + [r])[..|results|] == results;
  }

  /** The launches of a follow-up whose results so far are `results`. */
  function FollowupLaunches(engines: seq<Engine>, k: Knowledge, ids: seq<string>, results: seq<DynamicResult>, request: Request,
    maxRounds: int): seq<Launched>
    requires |ids| >= |results|
  {
    if results == [] then []
    else
      var last := |results| - 1;
      var before := LearnFollowups(k, ids, results[..last], request, maxRounds);
      FollowupLaunches(engines, k, ids, results[..last], request, maxRounds)
      + [Launched(ids[last], FollowupEntry(ById(engines, ids[last]), ids[last]), Targeted(request, ids[last], before.corpus))]
  }

  lemma FollowupNext(engines: seq<Engine>, k: Knowledge, ids: seq<string>, results: seq<DynamicResult>, r: DynamicResult,
    request: Request, maxRounds: int)
    requires |ids| > |results|
    ensures var id := ids[|results|];
            var before := LearnFollowups(k, ids, results, request, maxRounds);
            var targeted := Targeted(request, id, before.corpus);
            && LearnFollowups(k, ids, results + [r], request, maxRounds) == Learn(before, r, targeted, maxRounds)
            && FollowupLaunches(engines, k, ids, results + [r], request, maxRounds) ==
               FollowupLaunches(engines, k, ids, results, request, maxRounds)
               + [Launched(id, FollowupEntry(ById(engines, id), id), targeted)]
  {
    hide Learn, Targeted, FollowupEntry, ById;
    assert (results + [r])[..|results|] == results;
  }

  lemma NoFollowup(engines: seq<Engine>, k: Knowledge, ids: seq<string>, request: Request, maxRounds: int)
    ensures LearnFollowups(k, ids, [], request, maxRounds) == k
    ensures FollowupLaunches(engines, k, ids, [], request, maxRounds) == []
  {
  }

  // ----- the scheduler ----------------------------------------------------------------------------------------------

  class DiscoveryScheduler {
    const engines: seq<Engine>
    const maxEngines: int
    const maxRounds: int
    var corpus: set<Source>
    var feedback: Feedback
    var coverageSeen: map<string, real>
    var enginesStarted: nat
    ghost var executedReturned: nat
    ghost var launched: seq<Launched>

    function Known(): Knowledge
      reads this
    {
      Knowledge(corpus, feedback, coverageSeen)
    }

    /** The budget holds, and every executed result handed out was paid for. */
    ghost predicate Valid()
      reads this
    {
      && enginesStarted <= (if maxEngines > 0 then maxEngines else 0)
      && executedReturned <= enginesStarted
    }

    constructor (engines: seq<Engine>, maxEngines: int, maxRounds: int)
      ensures Valid() && enginesStarted == 0 && executedReturned == 0 && launched == []
      ensures this.engines == engines && this.maxEngines == maxEngines && this.maxRounds == maxRounds
      ensures Known() == Knowledge({}, Feedback(false, false, false, 0, 0, 0, [], []), map[])
    {
      this.engines, this.maxEngines, this.maxRounds := engines, maxEngines, maxRounds;
      corpus, coverageSeen, enginesStarted, executedReturned, launched := {}, map[], 0, 0, [];
      feedback := Feedback(false, false, false, 0, 0, 0, [], []);
    }

    /** `_coverage_increased`. */
    method CoverageIncreased(r: DynamicResult, request: Request) returns (grew: Option<bool>)
      modifies `coverageSeen
      ensures grew == Growth(old(coverageSeen), r, request)
      ensures coverageSeen == Learn(old(Known()), r, request, maxRounds).seen
    {
      hide CoverageKey, Noted, SeedsOf;
      if r.explicitCoverage.Some? { return r.explicitCoverage; }
      if r.percent.None? { return None; }
      var key := CoverageKey(r, request);
      grew := if key in coverageSeen then Some(r.percent.value > coverageSeen[key]) else None;
      coverageSeen := coverageSeen[key := r.percent.value];
    }

    method NoteExercised(r: DynamicResult)
      modifies `feedback
      ensures feedback == Exercised(old(feedback), r)
    {
      hide ExercisedLabel;
      feedback := feedback.(rounds := feedback.rounds + 1);
      var shown := ExercisedLabel(r);
      if shown != "" && shown !in feedback.exercised { feedback := feedback.(exercised := feedback.exercised + [shown]); }
    }

    method NoteCoverage(r: DynamicResult, increased: Option<bool>)
      modifies `feedback, `corpus
      ensures feedback == Compared(old(feedback), r, increased)
      ensures corpus == old(corpus) + (if increased == Some(true) && r.minimized then {CoverageSeed} else {})
    {
      if increased == Some(true) {
        feedback := feedback.(newCoverage := true, stagnating := false);
        if r.minimized { corpus := corpus + {CoverageSeed}; }
      } else if increased == Some(false) && r.executed {
        feedback := feedback.(stagnating := true);
      }
    }

    method NoteSymptoms(r: DynamicResult)
      modifies `feedback, `corpus
      ensures feedback == Judged(Counted(old(feedback), r), maxRounds)
      ensures corpus == old(corpus) + SeedsOf(r, None)
    {
      if r.crash {
        feedback := feedback.(crashes := feedback.crashes + 1);
        if r.minimized { corpus := corpus + {CrashSeed}; }
      }
      if r.assertion { feedback := feedback.(assertionFailures := feedback.assertionFailures + 1); }
      if r.engine == "ityfuzz" && r.minimized && r.verifiedInput { corpus := corpus + {ItyfuzzSeed}; }
      if r.minimized && r.symbolicInput { corpus := corpus + {SymbolicSeed}; }
      if feedback.rounds >= maxRounds && feedback.stagnating && !feedback.newCoverage {
        feedback := feedback.(difficult := true);
      }
    }

    /** `note_result`: the scheduler learns from the result, and the budget stays as it is. */
    method NoteResult(r: DynamicResult, request: Request)
      modifies `coverageSeen, `feedback, `corpus
      ensures Known() == Learn(old(Known()), r, request, maxRounds)
    {
      hide Exercised, Compared, Counted, Judged, Get, CoverageKey, Growth;
      NoteExercised(r);
      var increased := CoverageIncreased(r, request);
      NoteCoverage(r, increased);
      NoteSymptoms(r);
    }

    /** `select`: decides without running anything. */
    method Select(request: Request) returns (decisions: seq<Decision>)
      ensures Selection(engines, request, feedback, OrderOf(request, feedback), maxEngines - enginesStarted, decisions)
    {
      hide Decide, OrderOf, ById;
      var ids := EngineOrder(request, feedback);
      decisions := [];
      ghost var room := maxEngines - enginesStarted;
      var selected := 0;
      for k := 0 to |ids|
        invariant selected == |RunIds(decisions)|
        invariant Selection(engines, request, feedback, ids[..k], room, decisions)
      {
        var decision;
        var engine := ById(engines, ids[k]);
        if engine.None? {
          decision := Decision(ids[k], false, "unregistered");
        } else {
          decision := Decide(engine.value, request, feedback);
          if decision.run && selected + enginesStarted >= maxEngines {
            decision := Decision(engine.value.id, false, "budget");
          }
        }
        RunIdsAppend(decisions, decision);
        ghost var before := decisions;
        decisions := decisions + [decision];
        if decision.run { selected := selected + 1; }
        SelectionStep(engines, request, feedback, ids[..k], room, before, ids[k], decision);
        assert ids[..k + 1] == ids[..k] + [ids[k]];
      }
      assert ids[..|ids|] == ids;
    }

    /** An engine runs; what it reports is unknown. */
    method Launch(e: Engine, entry: Entry, request: Request) returns (r: DynamicResult)
      modifies `launched
      ensures launched == old(launched) + [Launched(e.id, entry, request)]
    {
      launched := launched + [Launched(e.id, entry, request)];
      r := *;
    }

    /** An engine starts, runs and is learned from. */
    method RunOne(id: string, entry: Entry, request: Request) returns (r: DynamicResult)
      requires Valid() && enginesStarted < maxEngines && ById(engines, id).Some?
      modifies this
      ensures Valid() && enginesStarted == old(enginesStarted) + 1
      ensures executedReturned == old(executedReturned) + (if r.executed then 1 else 0)
      ensures Known() == Learn(old(Known()), r, request, maxRounds)
      ensures launched == old(launched) + [Launched(id, entry, request)]
    {
      hide ById, Learn;
      enginesStarted := enginesStarted + 1;
      var engine := ById(engines, id);
      r := Launch(engine.value, entry, request);
      if r.executed { executedReturned := executedReturned + 1; }
      NoteResult(r, request);
    }

    /**
     `run_selected`: runs exactly the selected engines, each at most once.  The number of results is the number of
     engines selected, so the budget check inside the loop never skips one.
     */
    method RunSelected(request: Request) returns (results: seq<DynamicResult>, ghost ran: seq<string>)
      requires Valid()
      modifies this
      ensures Valid()
      ensures DistinctIds(ran) && |results| == |ran| && enginesStarted == old(enginesStarted) + |ran|
      ensures executedReturned == old(executedReturned) + ExecutedCount(results)
      ensures exists decisions :: ran == RunIds(decisions)
                && Selection(engines, request, old(feedback), OrderOf(request, old(feedback)),
                             maxEngines - old(enginesStarted), decisions)
      ensures Known() == LearnAll(old(Known()), results, request, maxRounds)
      ensures launched == old(launched) + Launches(engines, ran, request)
    {
      hide Selection, OrderOf, Learn, LearnAll, ExecutedCount, ById, RunIds, Launches, EntryOf, IsStatic, DistinctIds;
      var decisions := Select(request);
      ghost var order := OrderOf(request, feedback);
      OrderIsDistinct(request, feedback);
      SelectionRuns(engines, request, feedback, order, maxEngines - enginesStarted, decisions);
      ghost var room := maxEngines - enginesStarted;
      ghost var started := enginesStarted;
      NoIds(decisions);
      results, ran := [], [];
      NoLaunches(engines, request);
      NoResults(Known(), request, maxRounds);
      NoCount();
      for k := 0 to |decisions|
        invariant ran == RunIds(decisions[..k]) && |results| == |ran|
        invariant Valid() && enginesStarted == started + |ran|
        invariant executedReturned == old(executedReturned) + ExecutedCount(results)
        invariant Known() == LearnAll(old(Known()), results, request, maxRounds)
        invariant launched == old(launched) + Launches(engines, ran, request)
        modifies this
      {
        var d := decisions[k];
        RunIdsNext(decisions, k);
        if !d.run { continue; }
        assert enginesStarted < maxEngines;
        if enginesStarted >= maxEngines { continue; }
        SelectedIsRegistered(engines, request, old(feedback), order, room, decisions, k);
        LaunchesNext(engines, ran, d.engineId, request);
        var engine := ById(engines, d.engineId);
        EntryIs(engine);
        var r := RunOne(d.engineId, if IsStatic(engine) then AnalyzeTarget else StartCampaign, request);
        ResultsNext(old(Known()), results, r, request, maxRounds);
        CountNext(results, r);
        results := results + [r];
        ran := ran + [d.engineId];
      }
      assert decisions[..|decisions|] == decisions;
    }

    /** `run_engine`: counts only what executed, and refuses when the budget is spent. */
    method RunEngine(id: string, request: Request) returns (r: DynamicResult)
      requires Valid()
      modifies this
      ensures Valid()
      ensures enginesStarted == old(enginesStarted) + (if r.executed then 1 else 0)
      ensures executedReturned == old(executedReturned) + (if r.executed then 1 else 0)
      ensures FirstById(engines, id).None? || old(enginesStarted) >= maxEngines ==>
                !r.executed && r.status == Unsupported && r.engine == id && Known() == old(Known()) && launched == old(launched)
      ensures FirstById(engines, id).Some? && old(enginesStarted) < maxEngines ==>
                && Known() == Learn(old(Known()), r, request, maxRounds)
                && launched == old(launched) + [Launched(id, EntryOf(FirstById(engines, id)), request)]
    {
      hide Learn;
      var engine := FirstById(engines, id);
      if engine.None? || enginesStarted >= maxEngines {
        return DynamicResult(id, Unsupported, false, false, false, false, None, None, "", false, false);
      }
      r := Launch(engine.value, if IsStatic(engine) then AnalyzeTarget else StartCampaign, request);
      if r.executed {
        enginesStarted := enginesStarted + 1;
        executedReturned := executedReturned + 1;
      }
      NoteResult(r, request);
    }

    /** The choice of `plan_followup`. */
    method ChooseFollowup(request: Request) returns (decisions: seq<Decision>)
      ensures decisions == FollowupOf(engines, feedback, corpus, request)
    {
      hide Decide, ById;
      decisions := [];
      var already := ("halmos", true) in feedback.transitions;
      var halmos := ById(engines, "halmos");
      if feedback.difficult && halmos.Some? && !already {
        var d := Decide(halmos.value, request, feedback);
        if !d.run && feedback.difficult { d := Decision("halmos", halmos.value.available, ""); }
        decisions := decisions + [d];
      }
      var foundry, medusa := ById(engines, "foundry"), ById(engines, "medusa");
      if SymbolicSeed in corpus && foundry.Some? {
        decisions := decisions + [Decision("foundry", foundry.value.available, "")];
      } else if feedback.stagnating && request.function_ != "" && medusa.Some? {
        var targeted := request.(campaignId := "", hasHarness := true, extra := request.extra["mode" := "fuzz"]);
        decisions := decisions + [Decide(medusa.value, targeted, feedback)];
      }
    }

    /** `plan_followup`: what was decided is noted down. */
    method PlanFollowup(request: Request) returns (decisions: seq<Decision>)
      modifies `feedback
      ensures decisions == FollowupOf(engines, old(feedback), corpus, request)
      ensures feedback == old(feedback).(transitions := old(feedback).transitions + Notes(decisions))
    {
      hide FollowupOf, Notes;
      decisions := ChooseFollowup(request);
      NoNotes(decisions);
      for k := 0 to |decisions|
        invariant feedback == old(feedback).(transitions := old(feedback).transitions + Notes(decisions[..k]))
      {
        feedback := feedback.(transitions := feedback.transitions + [(decisions[k].engineId, decisions[k].run)]);
        NotesNext(decisions, k);
      }
      assert decisions[..|decisions|] == decisions;
    }

    /** What the scheduler knows once a follow-up is planned. */
    function Planned(request: Request): Knowledge
      reads this
    {
      Known().(feedback := feedback.(transitions := feedback.transitions
        + Notes(FollowupOf(engines, feedback, corpus, request))))
    }

    /** `run_followup`: as many of the planned engines as the budget allows, in order, each under its own request. */
    method RunFollowup(request: Request) returns (results: seq<DynamicResult>)
      requires Valid()
      modifies this
      ensures Valid()
      ensures enginesStarted == old(enginesStarted) + |results|
      ensures executedReturned == old(executedReturned) + ExecutedCount(results)
      ensures var ids := RunIds(FollowupOf(engines, old(feedback), old(corpus), request));
              && |results| == Affordable(maxEngines - old(enginesStarted), |ids|) <= 2
              && Known() == LearnFollowups(old(Planned(request)), ids, results, request, maxRounds)
              && launched == old(launched) + FollowupLaunches(engines, old(Planned(request)), ids, results, request, maxRounds)
    {
      hide ById, Learn, FollowupOf, Targeted, RunIds, Notes, FollowupEntry, LearnFollowups, FollowupLaunches, ExecutedCount,
        DistinctIds;
      NoIds(FollowupOf(engines, feedback, corpus, request));
      results := [];
      ghost var start := old(Planned(request));
      ghost var room := maxEngines - enginesStarted;
      var decisions := PlanFollowup(request);
      FollowupIsShort(engines, old(feedback), old(corpus), request);
      ghost var ids := RunIds(decisions);
      NoFollowup(engines, start, ids, request, maxRounds);
      NoCount();
      for k := 0 to |decisions|
        invariant Valid() && enginesStarted == old(enginesStarted) + |results|
        invariant executedReturned == old(executedReturned) + ExecutedCount(results)
        invariant |RunIds(decisions[..k])| <= |ids| && RunIds(decisions[..k]) == ids[..|RunIds(decisions[..k])|]
        invariant |results| == Affordable(room, |RunIds(decisions[..k])|)
        invariant Known() == LearnFollowups(start, ids, results, request, maxRounds)
        invariant launched == old(launched) + FollowupLaunches(engines, start, ids, results, request, maxRounds)
        modifies this
      {
        var d := decisions[k];
        RunIdsNext(decisions, k);
        if !d.run { continue; }
        if enginesStarted >= maxEngines { continue; }
        var r := RunPlanned(d.engineId, request);
        assert ids[|results|] == d.engineId;
        FollowupNext(engines, start, ids, results, r, request, maxRounds);
        CountNext(results, r);
        results := results + [r];
      }
      assert decisions[..|decisions|] == decisions;
    }

    /** One engine of a follow-up starts, under the request built for it. */
    method RunPlanned(id: string, request: Request) returns (r: DynamicResult)
      requires Valid() && enginesStarted < maxEngines && ById(engines, id).Some?
      modifies this
      ensures Valid() && enginesStarted == old(enginesStarted) + 1
      ensures executedReturned == old(executedReturned) + (if r.executed then 1 else 0)
      ensures Known() == Learn(old(Known()), r, Targeted(request, id, old(corpus)), maxRounds)
      ensures launched == old(launched) + [Launched(id, FollowupEntry(ById(engines, id), id), Targeted(request, id, old(corpus)))]
    {
      hide ById, Learn, Targeted;
      var targeted := TargetedRequest(request, id);
      var engine := ById(engines, id);
      r := RunOne(id, if IsStatic(engine) && id != "halmos" then AnalyzeTarget else StartCampaign, targeted);
    }

    /** The request `run_followup` builds for an engine. */
    method TargetedRequest(request: Request, id: string) returns (targeted: Request)
      ensures targeted == Targeted(request, id, corpus)
    {
      var extra := request.extra;
      if id == "foundry" && SymbolicSeed in corpus {
        extra := extra["mode" := "fuzz"];
      } else if id == "medusa" {
        extra := extra["mode" := "fuzz"];
      }
      targeted := Request(request.root, request.language, request.target, request.function_, request.contract,
        request.sourceFile, if id == "halmos" then true else request.difficult, request.framework, request.hasHarness, "", extra);
    }
  }

  /** How many of `wanted` engines fit into `room`. */
  function Affordable(room: int, wanted: nat): nat {
    if room <= 0 then 0 else if wanted < room then wanted else room
  }

  lemma NoNotes(d: seq<Decision>)
    ensures Notes(d[..0]) == []
  {
  }

  lemma NotesNext(d: seq<Decision>, k: nat)
    requires k < |d|
    ensures Notes(d[..k + 1]) == Notes(d[..k]) + [(d[k].engineId, d[k].run)]
  {
  }

  lemma NoIds(d: seq<Decision>)
    ensures RunIds(d[..0]) == []
  {
  }

  lemma RunIdsNext(d: seq<Decision>, k: nat)
    requires k < |d|
    ensures RunIds(d[..k + 1]) == RunIds(d[..k]) + (if d[k].run then [d[k].engineId] else [])
    ensures |RunIds(d[..k + 1])| <= |RunIds(d)| && RunIds(d[..k + 1]) == RunIds(d)[..|RunIds(d[..k + 1])|]
  {
    assert d[..k + 1] == d[..k] + [d[k]];
    RunIdsAppend(d[..k], d[k]);
    RunIdsPrefix(d, k + 1);
  }

  lemma {:induction false} RunIdsPrefix(d: seq<Decision>, k: nat)
    requires k <= |d|
    ensures |RunIds(d[..k])| <= |RunIds(d)| && RunIds(d[..k]) == RunIds(d)[..|RunIds(d[..k])|]
    decreases |d| - k
  {
    if k == |d| {
      assert d[..k] == d;
    } else {
      RunIdsPrefix(d, k + 1);
      assert d[..k + 1] == d[..k] + [d[k]];
      RunIdsAppend(d[..k], d[k]);
    }
  }

  lemma SelectionStep(engines: seq<Engine>, request: Request, f: Feedback, order: seq<string>, room: int,
    decisions: seq<Decision>, id: string, d: Decision)
    requires Selection(engines, request, f, order, room, decisions)
    requires d.engineId == id
    requires match ById(engines, id)
             case None => d == Decision(id, false, "unregistered")
             case Some(e) =>
               var wanted := Decide(e, request, f);
               if wanted.run && |RunIds(decisions)| >= room then d == Decision(id, false, "budget") else d == wanted
    ensures Selection(engines, request, f, order + [id], room, decisions + [d])
  {
    hide Decide, ById;
    RunIdsAppend(decisions, d);
    var all := decisions + [d];
    assert all[..|order|] == decisions;
    forall k | 0 <= k < |order| ensures all[..k] == decisions[..k] && all[k] == decisions[k] { }
  }

  lemma SelectionRuns(engines: seq<Engine>, request: Request, f: Feedback, order: seq<string>, room: int, decisions: seq<Decision>)
    requires Selection(engines, request, f, order, room, decisions) && DistinctIds(order)
    ensures DistinctIds(RunIds(decisions)) && |RunIds(decisions)| <= (if room > 0 then room else 0)
  {
    hide Decide, ById;
    RunIdsDistinct(order, decisions);
  }

  lemma SelectedIsRegistered(engines: seq<Engine>, request: Request, f: Feedback, order: seq<string>, room: int,
    decisions: seq<Decision>, k: nat)
    requires Selection(engines, request, f, order, room, decisions)
    requires k < |decisions| && decisions[k].run
    ensures ById(engines, decisions[k].engineId).Some?
  {
    hide Decide, ById;
  }
}
