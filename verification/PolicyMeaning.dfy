/**
 What the policies decide, in terms of the kinds, outcomes and metadata of the records: the sets of the source are
 written out in the statements.
 */
module PolicyMeaning {
  import opened Options
  import opened Evidence
  import opened TrustedEvidence
  import opened LifecyclePolicy
  import opened Findings
  import opened LifecycleTheorems

  // ----- records -----------------------------------------------------------------------------------------------

  /** A record contradicts the finding if it says so, or that the suspected path was not reached. */
  lemma ContradictsIff(env: Env, item: Item)
    ensures Contradicts(env, item) <==>
      || env.lower(Meta(item, "contradicts")) in {"1", "true", "yes"}
      || env.lower(Meta(item, "reached")) in {"0", "false", "no", "not_reached"}
  {
    hide Meta;
  }

  /**
   A reproduction is positive exactly if it does not contradict, is not flagged as unsuccessful, and either its outcome is
   one of four successes, or it has no outcome and is flagged as successful.  In particular no failure counts.
   */
  lemma PositiveIff(env: Env, item: Item)
    ensures var outcome := env.lower(Meta(item, "outcome"));
            var flag := env.lower(Meta(item, "reproduced"));
            && (PositiveReproduction(env, item) <==>
                  && item.kind == Reproduction && !Contradicts(env, item) && flag !in {"0", "false", "no"}
                  && (|| outcome in {"reproduced", "consistently_reproduced", "success", "exploited"}
                      || (outcome == "" && flag in {"1", "true", "yes"})))
            && (PositiveReproduction(env, item) ==>
                  outcome !in {"failed", "not_reproduced", "blocked", "inconclusive", "intermittent", "error",
                               "no_evidence", "environment_error", "timeout"})
  {
    hide Meta, Contradicts;
  }

  lemma BoundIff(item: Item, b: Binding)
    ensures BoundTo(item, b) <==>
      && b.targetId != "" && Meta(item, "observed_target") == b.targetId
      && b.findingId != "" && Meta(item, "finding_id") == b.findingId
      && Meta(item, "finding_key") == b.findingKey && Meta(item, "project_id") == b.projectId
  {
    hide Meta;
  }

  /**
   Two records are the same event exactly if they have the same kind, source, summary, digest, artifact and event fields,
   and the fields that identify an event of their kind agree.
   */
  lemma SameEventIff(env: Env, a: Item, c: Item)
    ensures ObservationIdentity(env, a) == ObservationIdentity(env, c) <==>
      && a.kind == c.kind && env.strip(a.source) == env.strip(c.source) && env.collapse(a.summary) == env.collapse(c.summary)
      && ShortDigest(env, a.details) == ShortDigest(env, c.details)
      && env.slashes(if a.artifactPath.Some? then a.artifactPath.value else "") ==
         env.slashes(if c.artifactPath.Some? then c.artifactPath.value else "")
      && Meta(a, "line") == Meta(c, "line")
      && Either(Meta(a, "contradicts"), Meta(a, "reached")) == Either(Meta(c, "contradicts"), Meta(c, "reached"))
      && Meta(a, "execution_id") == Meta(c, "execution_id") && Meta(a, "outcome") == Meta(c, "outcome")
      && Meta(a, "finding_id") == Meta(c, "finding_id") && Meta(a, "finding_key") == Meta(c, "finding_key")
      && Meta(a, "project_id") == Meta(c, "project_id") && SameTypeFields(env, a.kind, a.metadata, c.metadata)
  {
    hide Text, ShortDigest, SameTypeFields, TypeIdentity;
    TypeFieldsIff(env, a.kind, a.metadata, c.metadata);
    var p, q := ObservationIdentity(env, a), ObservationIdentity(env, c);
    assert p.event == q.event <==> forall k :: 0 <= k < 7 ==> p.event[k] == q.event[k];
  }

  predicate SameNorm(env: Env, m: Metadata, n: Metadata, key: string) {
    Norm(env, m, key) == Norm(env, n, key)
  }

  predicate SameEither(env: Env, m: Metadata, n: Metadata, first: string, second: string) {
    Either(Norm(env, m, first), Norm(env, m, second)) == Either(Norm(env, n, first), Norm(env, n, second))
  }

  /** The fields that identify an event of one kind. */
  predicate SameTypeFields(env: Env, kind: Kind, m: Metadata, n: Metadata) {
    && (kind in {HttpRequest, HttpResponse, Proxy, ApiTest} ==>
          SameNorm(env, m, n, "method") && SameEither(env, m, n, "url", "route") && SameEither(env, m, n, "status", "status_code"))
    && (kind == Scanner ==>
          SameEither(env, m, n, "check_id", "rule_id") && SameNorm(env, m, n, "target") && SameNorm(env, m, n, "result_id"))
    && (kind == Browser ==>
          SameEither(env, m, n, "route", "url") && SameNorm(env, m, n, "event") && SameNorm(env, m, n, "session_id"))
    && (kind == Fuzzing ==> SameNorm(env, m, n, "target") && SameNorm(env, m, n, "result_id"))
    && (kind == Reproduction ==>
          SameNorm(env, m, n, "result_id") && SameNorm(env, m, n, "reproduced") && SameNorm(env, m, n, "observed_target"))
    && (kind in {StaticAnalysis, SourceCode} ==>
          && SameEither(env, m, n, "rule", "sink") && SameNorm(env, m, n, "field_path") && SameNorm(env, m, n, "sink_occurrence")
          && SameNorm(env, m, n, "scope_id") && SameNorm(env, m, n, "argument_index"))
  }

  lemma TypeFieldsIff(env: Env, kind: Kind, m: Metadata, n: Metadata)
    ensures TypeIdentity(env, kind, m) == TypeIdentity(env, kind, n) <==> SameTypeFields(env, kind, m, n)
  {
    hide Norm, Either;
    var p, q := TypeIdentity(env, kind, m), TypeIdentity(env, kind, n);
    assert |p| == |q| <= 5;
    assert p == q <==> forall k :: 0 <= k < |p| ==> p[k] == q[k];
  }

  // ----- what verifies and what corroborates --------------------------------------------------------------------

  /**
   A server observation alone verifies exactly if it is of one of seven kinds, names the finding, its key, its project and
   its target, and does not contradict.
   */
  lemma OneVerifiesIff(env: Env, item: Item, b: Binding)
    requires Signs(env) && Constructed(env, item)
    ensures HasVerifying(env, [item], b) <==>
      && item.kind in {HttpResponse, Browser, Scanner, ApiTest, Replay, Fuzzing, Proxy}
      && b.targetId != "" && Meta(item, "observed_target") == b.targetId
      && b.findingId != "" && Meta(item, "finding_id") == b.findingId
      && Meta(item, "finding_key") == b.findingKey && Meta(item, "project_id") == b.projectId
      && env.lower(Meta(item, "contradicts")) !in {"1", "true", "yes"}
      && env.lower(Meta(item, "reached")) !in {"0", "false", "no", "not_reached"}
  {
    hide Meta, IsTrusted, Constructed, ObservationIdentity;
    ConstructedIsTrusted(env, item);
    assert ReproducedIn(env, [item], item) ==> item.kind == Reproduction;
    if HasVerifying(env, [item], b) {
      var k :| 0 <= k < 1 && Verifies(env, [item], [item][k], b);
    } else {
      assert !Verifies(env, [item], [item][0], b);
    }
  }

  /** A server observation alone corroborates exactly if it is one of those, or an HTTP request, so bound. */
  lemma OneCorroboratesIff(env: Env, item: Item, b: Binding)
    requires Signs(env) && Constructed(env, item)
    ensures Corroborates(env, [item], b) <==>
      && item.kind in {HttpRequest, HttpResponse, Browser, Scanner, ApiTest, Replay, Fuzzing, Proxy}
      && b.targetId != "" && Meta(item, "observed_target") == b.targetId
      && b.findingId != "" && Meta(item, "finding_id") == b.findingId
      && Meta(item, "finding_key") == b.findingKey && Meta(item, "project_id") == b.projectId
      && env.lower(Meta(item, "contradicts")) !in {"1", "true", "yes"}
      && env.lower(Meta(item, "reached")) !in {"0", "false", "no", "not_reached"}
  {
    hide Meta, IsTrusted, Constructed, ObservationIdentity;
    ConstructedIsTrusted(env, item);
    assert forall k :: 0 <= k < |[item]| ==> [item][k] == item;
    assert Researches(env, item, b) ==> Researches(env, [item][0], b);
  }

  /**
   Two records the server did not sign corroborate exactly if both are static analyses or source excerpts, neither
   contradicts, each names no target or the one asked for, and they are different events.
   */
  lemma TwoCorroborateIff(env: Env, a: Item, c: Item, b: Binding)
    requires a.stamp.None? && c.stamp.None?
    ensures Corroborates(env, [a, c], b) <==>
      && a.kind in {StaticAnalysis, SourceCode} && c.kind in {StaticAnalysis, SourceCode}
      && !Contradicts(env, a) && !Contradicts(env, c)
      && (Meta(a, "observed_target") == "" || (b.targetId != "" && Meta(a, "observed_target") == b.targetId))
      && (Meta(c, "observed_target") == "" || (b.targetId != "" && Meta(c, "observed_target") == b.targetId))
      && ObservationIdentity(env, a) != ObservationIdentity(env, c)
  {
    hide Meta, Contradicts, ObservationIdentity, Sign;
    var items := [a, c];
    assert forall k :: 0 <= k < |items| ==> items[k] == a || items[k] == c;
    assert items[0] == a && items[1] == c;
  }

  // ----- over every run ---------------------------------------------------------------------------------------------

  /** All records that a run is given have one of these kinds. */
  predicate GivenOnly(f: Finding, actions: seq<Action>, kinds: set<Kind>) {
    && (forall k :: 0 <= k < |f.evidence| ==> f.evidence[k].kind in kinds)
    && forall n, k :: 0 <= n < |actions| && 0 <= k < |Given(actions[n])| ==> Given(actions[n])[k].kind in kinds
  }

  function Given(a: Action): seq<Item> {
    match a
    case Verify(extra) => Extra(extra)
    case Reproduce(extra) => Extra(extra)
    case Reject(extra) => Extra(extra)
    case _ => []
  }

  lemma ApplyKeepsKinds(env: Env, f: Finding, a: Action, kinds: set<Kind>)
    requires forall k :: 0 <= k < |f.evidence| ==> f.evidence[k].kind in kinds
    requires forall k :: 0 <= k < |Given(a)| ==> Given(a)[k].kind in kinds
    ensures var g := After(env, f, a); forall k :: 0 <= k < |g.evidence| ==> g.evidence[k].kind in kinds
  {
    hide Constructible, TargetOf, HasVerifying, HasReproduction, Corroborates, StampAll, Kept, PositiveReproduction, TruthyMeta;
    var all := f.evidence + Given(a);
    assert forall k :: 0 <= k < |all| ==> all[k].kind in kinds;
    if a.Reproduce? {
      StampAllKeeps(env, all, TargetOf(env, f));
      var r := StampAll(env, all, TargetOf(env, f));
      assert r.Ok? ==> forall k :: 0 <= k < |all| ==> r.value[k].kind == all[k].kind;
    }
  }

  lemma {:induction false} RunKeepsKinds(env: Env, f: Finding, actions: seq<Action>, kinds: set<Kind>)
    requires GivenOnly(f, actions, kinds)
    ensures var g := Run(env, f, actions); forall k :: 0 <= k < |g.evidence| ==> g.evidence[k].kind in kinds
    decreases |actions|
  {
    hide After, Given, GivenOnly;
    if actions != [] {
      GivenNext(f, actions, kinds);
      ApplyKeepsKinds(env, f, actions[0], kinds);
      var g := After(env, f, actions[0]);
      GivenRest(f, g, actions, kinds);
      RunKeepsKinds(env, g, actions[1..], kinds);
      assert Run(env, f, actions) == Run(env, g, actions[1..]);
    } else {
      assert Run(env, f, actions) == f;
      GivenHere(f, actions, kinds);
    }
  }

  lemma GivenHere(f: Finding, actions: seq<Action>, kinds: set<Kind>)
    requires GivenOnly(f, actions, kinds)
    ensures forall k :: 0 <= k < |f.evidence| ==> f.evidence[k].kind in kinds
  {
    hide Given;
  }

  lemma GivenNext(f: Finding, actions: seq<Action>, kinds: set<Kind>)
    requires GivenOnly(f, actions, kinds) && actions != []
    ensures forall k :: 0 <= k < |f.evidence| ==> f.evidence[k].kind in kinds
    ensures forall k :: 0 <= k < |Given(actions[0])| ==> Given(actions[0])[k].kind in kinds
  {
    hide Given;
  }

  lemma GivenRest(f: Finding, g: Finding, actions: seq<Action>, kinds: set<Kind>)
    requires GivenOnly(f, actions, kinds) && actions != []
    requires forall k :: 0 <= k < |g.evidence| ==> g.evidence[k].kind in kinds
    ensures GivenOnly(g, actions[1..], kinds)
  {
    hide Given;
    forall n, k | 0 <= n < |actions[1..]| && 0 <= k < |Given(actions[1..][n])|
      ensures Given(actions[1..][n])[k].kind in kinds
    {
      assert actions[1..][n] == actions[n + 1];
    }
  }

  /**
   A finding that a run has verified holds a record that the server signed, of a kind observed at run time, bound to the
   finding and not contradicting it.
   */
  lemma RunVerifiesByObservation(env: Env, f: Finding, actions: seq<Action>) returns (item: Item)
    requires Constructible(env, f) && Run(env, f, actions).status == Verified
    ensures var g := Run(env, f, actions);
            && item in g.evidence && IsTrusted(env, item) && !Contradicts(env, item)
            && ProvenanceOf(item.kind) in {FromHttp, FromBrowser, FromScanner, FromApiTest, FromReplay, FromFuzzing}
            && item.kind != HttpRequest
            && Meta(item, "finding_id") == f.id && Meta(item, "finding_key") == f.findingKey
            && Meta(item, "project_id") == f.projectId && Meta(item, "observed_target") == TargetOf(env, g)
  {
    hide IsTrusted, Meta, Contradicts, TargetOf, ReproducedIn, Apply;
    var g := Run(env, f, actions);
    RunStaysConstructible(env, f, actions);
    RunKeepsIdentity(env, f, actions);
    var k :| 0 <= k < |g.evidence| && Verifies(env, g.evidence, g.evidence[k], BindingOf(env, g));
    item := g.evidence[k];
  }

  /** No transition changes which finding it is or what it is about. */
  lemma {:induction false} RunKeepsIdentity(env: Env, f: Finding, actions: seq<Action>)
    ensures var g := Run(env, f, actions);
            g == f.(status := g.status, evidence := g.evidence, review := g.review, tier := g.tier)
    decreases |actions|
  {
    hide Apply;
    if actions != [] {
      ApplyKeepsIdentity(env, f, actions[0]);
      RunKeepsIdentity(env, After(env, f, actions[0]), actions[1..]);
    }
  }

  lemma ApplyKeepsIdentity(env: Env, f: Finding, a: Action)
    ensures var r := Apply(env, f, a);
            r.Ok? ==> r.value == f.(status := r.value.status, evidence := r.value.evidence, review := r.value.review,
                                    tier := r.value.tier)
  {
    hide Constructible, TargetOf, HasVerifying, HasReproduction, Corroborates, StampAll;
  }

  /**
   Whatever is done to it, a potential finding is never verified on AI text, static analysis, source, generated or failed
   tests, reproductions, requests, logs, screenshots, plans or status reports alone.
   */
  lemma RunNeverVerifiesWithout(env: Env, f: Finding, actions: seq<Action>)
    requires Constructible(env, f)
    requires GivenOnly(f, actions, {
      AiAnalysis, StaticAnalysis, SourceCode, GeneratedTest, TestFailure, Reproduction, HttpRequest, Log, Screenshot,
      ScannerPlan, ToolStatus, EconomicObservation, ProtocolObservation, RuntimeObservation})
    ensures Run(env, f, actions).status != Verified
  {
    hide *;
    if Run(env, f, actions).status == Verified {
      var item := RunVerifiesByObservation(env, f, actions);
      var kinds := {
        AiAnalysis, StaticAnalysis, SourceCode, GeneratedTest, TestFailure, Reproduction, HttpRequest, Log, Screenshot,
        ScannerPlan, ToolStatus, EconomicObservation, ProtocolObservation, RuntimeObservation};
      RunKeepsKinds(env, f, actions, kinds);
      NotObserved(item.kind);
    }
  }

  lemma NotObserved(kind: Kind)
    requires kind in {
      AiAnalysis, StaticAnalysis, SourceCode, GeneratedTest, TestFailure, Reproduction, HttpRequest, Log, Screenshot,
      ScannerPlan, ToolStatus, EconomicObservation, ProtocolObservation, RuntimeObservation}
    ensures kind == HttpRequest ||
            ProvenanceOf(kind) !in {FromHttp, FromBrowser, FromScanner, FromApiTest, FromReplay, FromFuzzing}
  {
  }

  // ----- transitions -------------------------------------------------------------------------------------------------

  /** What a successful transition changes: the status, the review, the tier, and the evidence that it was given. */
  lemma TransitionWrites(env: Env, f: Finding, a: Action)
    requires Apply(env, f, a).Ok?
    ensures var g := Apply(env, f, a).value;
            && g == f.(status := g.status, evidence := g.evidence, review := g.review, tier := g.tier)
            && (a.Verify? ==> g.status == Verified && g.tier == VerifiedTier && g.review == f.review)
            && (a.Corroborate? ==> g.status == Corroborated && g.tier == CorroboratedTier && g.review == f.review)
            && (a.Reproduce? ==> g.status == Reproduced && g.tier == ReproducedTier && g.review == f.review)
            && (a.HumanAccept? ==> g.status == HumanAccepted && g.tier == VerifiedTier && g.review == Accepted)
            && (a.Reject? ==> g.status == Rejected && g.tier == f.tier && g.review == f.review)
            && (a.WithReview? ==> g.status == f.status && g.tier == f.tier && g.review == a.state)
            && (a.Verify? || a.Reject? ==> g.evidence == f.evidence + Given(a))
            && (a.Corroborate? || a.HumanAccept? || a.WithReview? ==> g.evidence == f.evidence)
            && (a.Reproduce? ==> |g.evidence| == |f.evidence| + |Given(a)|)
  {
    hide Constructible, TargetOf, HasVerifying, HasReproduction, Corroborates, StampAll, Kept, PositiveReproduction, TruthyMeta;
    if a.Reproduce? { StampAllKeeps(env, f.evidence + Extra(a.extra), TargetOf(env, f)); }
  }

  /** The statuses from which each transition is refused. */
  lemma RefusedStatuses(env: Env, f: Finding, a: Action)
    ensures Apply(env, f, a) == Err(WrongStatus) <==>
      || (a.Verify? && f.status in {Rejected, HumanAccepted})
      || (a.Corroborate? && f.status in {Reproduced, Verified, HumanAccepted, Rejected})
      || (a.Reproduce? && f.status in {Verified, HumanAccepted, Rejected})
      || (a.HumanAccept? && f.status in {Potential, Corroborated, Rejected})
  {
    hide Constructible, TargetOf, HasVerifying, HasReproduction, Corroborates, StampAll, Kept, PositiveReproduction, TruthyMeta;
    match a
    case Reproduce(extra) => StampAllKeeps(env, f.evidence + Extra(extra), TargetOf(env, f));
    case HumanAccept =>
      match f.status {
        case Potential => case Corroborated => case Reproduced => case Verified => case HumanAccepted => case Rejected =>
      }
    case _ =>
  }

  /** The tier says how far the finding got. */
  predicate TierFits(f: Finding) {
    match f.status
    case Potential => f.tier in {AiHypothesis, StaticIndicator}
    case Corroborated => f.tier == CorroboratedTier
    case Reproduced => f.tier == ReproducedTier
    case Verified => f.tier == VerifiedTier
    case HumanAccepted => f.tier == VerifiedTier
    case Rejected => true
  }

  /** Over every run the tier goes with the status. */
  lemma {:induction false} RunKeepsTier(env: Env, f: Finding, actions: seq<Action>)
    requires TierFits(f)
    ensures TierFits(Run(env, f, actions))
    decreases |actions|
  {
    hide Apply;
    if actions != [] {
      if Apply(env, f, actions[0]).Ok? { TransitionWrites(env, f, actions[0]); }
      RunKeepsTier(env, After(env, f, actions[0]), actions[1..]);
    }
  }

  // ----- the semantic target -------------------------------------------------------------------------------------------

  /** A static observation with a value that is not blank. */
  predicate Carries(env: Env, item: Item, key: string) {
    item.kind == StaticAnalysis && env.collapse(TruthyMeta(item, key)) != ""
  }

  /** The value taken is that of the first static observation that has one; without any it is empty. */
  lemma {:induction false} FirstOfIsFirst(env: Env, items: seq<Item>, key: string, k: nat)
    requires k <= |items| && (forall j :: 0 <= j < k ==> !Carries(env, items[j], key))
    requires k < |items| ==> Carries(env, items[k], key)
    ensures FirstOf(env, items, key) == if k < |items| then env.collapse(TruthyMeta(items[k], key)) else ""
  {
    hide TruthyMeta;
    if k > 0 {
      FirstOfIsFirst(env, items[1..], key, k - 1);
      assert !Carries(env, items[0], key);
    }
  }

  /** The path as the target has it. */
  function PathOf(env: Env, path: Option<string>): string {
    if path.Some? && path.value != "" then env.trimPath(env.slashes(path.value)) else ""
  }

  /**
   Two findings have the same target exactly if they agree in project, path, class, sink, source and field path, and in
   the five fields that their first static observations set.
   */
  lemma SameTargetIff(env: Env, f: Finding, g: Finding)
    requires Distinguishing(env)
    ensures TargetOf(env, f) == TargetOf(env, g) <==>
      && env.collapse(f.projectId) == env.collapse(g.projectId) && PathOf(env, f.path) == PathOf(env, g.path)
      && env.collapse(f.vulnerabilityClass) == env.collapse(g.vulnerabilityClass)
      && env.collapse(f.flowSink) == env.collapse(g.flowSink) && env.collapse(f.flowSource) == env.collapse(g.flowSource)
      && env.collapse(f.fieldPath) == env.collapse(g.fieldPath)
      && forall key :: key in {"scope_id", "argument_index", "sink_occurrence", "sink_id", "call_identity"} ==>
           FirstOf(env, f.evidence, key) == FirstOf(env, g.evidence, key)
  {
    hide FirstOf;
    var keys := {"scope_id", "argument_index", "sink_occurrence", "sink_id", "call_identity"};
    assert "scope_id" in keys && "argument_index" in keys && "sink_occurrence" in keys && "sink_id" in keys
           && "call_identity" in keys;
    assert (forall key :: key in keys ==> FirstOf(env, f.evidence, key) == FirstOf(env, g.evidence, key)) <==>
      && FirstOf(env, f.evidence, "scope_id") == FirstOf(env, g.evidence, "scope_id")
      && FirstOf(env, f.evidence, "argument_index") == FirstOf(env, g.evidence, "argument_index")
      && FirstOf(env, f.evidence, "sink_occurrence") == FirstOf(env, g.evidence, "sink_occurrence")
      && FirstOf(env, f.evidence, "sink_id") == FirstOf(env, g.evidence, "sink_id")
      && FirstOf(env, f.evidence, "call_identity") == FirstOf(env, g.evidence, "call_identity");
  }

  // ----- restored observations -----------------------------------------------------------------------------------------

  /** The metadata under a signature. */
  lemma SignedKeys(key: string)
    ensures key in SIGNED_META <==> key in {
      "argument_index", "check_id", "contradicts", "event", "execution_id", "field_path", "finding_id", "finding_key",
      "line", "method", "observed_target", "outcome", "project_id", "reached", "reproduced", "result_id", "route",
      "rule", "rule_id", "scope_id", "session_id", "sink", "sink_occurrence", "status", "status_code", "target", "url"}
  {
  }

  /**
   A record restored as trusted under the signature of an observation agrees with it in everything that decides identity
   or lifecycle: in its own fields, and in 27 metadata fields up to blanks.
   */
  lemma RestoredIsOriginal(env: Env, original: Item, item: Item, objectId: string)
    requires Signs(env) && Collisionless(env) && env.collapse("") == ""
    requires Constructed(env, original) && item.stamp.None? && WellFormed(env, item)
    requires TruthyMeta(item, "observation_signature") == original.stamp.value.signature
    requires Restore(env, item, objectId).Ok? && IsTrusted(env, Restore(env, item, objectId).value)
    ensures var r := Restore(env, item, objectId).value;
            && r.kind == original.kind && env.strip(r.source) == env.strip(original.source)
            && env.collapse(r.summary) == env.collapse(original.summary) && r.details == original.details
            && env.slashes(if r.artifactPath.Some? then r.artifactPath.value else "") ==
               env.slashes(if original.artifactPath.Some? then original.artifactPath.value else "")
            && forall key :: key in {
                 "argument_index", "check_id", "contradicts", "event", "execution_id", "field_path", "finding_id",
                 "finding_key", "line", "method", "observed_target", "outcome", "project_id", "reached", "reproduced",
                 "result_id", "route", "rule", "rule_id", "scope_id", "session_id", "sink", "sink_occurrence", "status",
                 "status_code", "target", "url"} ==>
                 Meta(r, key) == Meta(item, key) && env.collapse(Meta(r, key)) == env.collapse(Meta(original, key))
  {
    hide *;
    AlteredRecordIsNotRestored(env, original, item, objectId);
    RestoredReads(env, item, objectId);
    var r := Restore(env, item, objectId).value;
    forall key | key in {
                 "argument_index", "check_id", "contradicts", "event", "execution_id", "field_path", "finding_id",
                 "finding_key", "line", "method", "observed_target", "outcome", "project_id", "reached", "reproduced",
                 "result_id", "route", "rule", "rule_id", "scope_id", "session_id", "sink", "sink_occurrence", "status",
                 "status_code", "target", "url"}
      ensures Meta(r, key) == Meta(item, key) && env.collapse(Meta(r, key)) == env.collapse(Meta(original, key))
    {
      SignedKeys(key);
      NotAlteredAt(env, item, original, key);
    }
    NotAltered(env, item, original);
  }

  /** Restoring as trusted adds the markers and nothing else. */
  lemma RestoredReads(env: Env, item: Item, objectId: string)
    requires item.stamp.None? && Restore(env, item, objectId).Ok? && IsTrusted(env, Restore(env, item, objectId).value)
    ensures var r := Restore(env, item, objectId).value;
            && r.kind == item.kind && r.source == item.source && r.summary == item.summary && r.details == item.details
            && r.artifactPath == item.artifactPath
            && forall key :: key !in {"observation_signature", "server_observation_id"} ==> Meta(r, key) == Meta(item, key)
  {
    hide Sign, WellFormed, TruthyMeta, Ascii, Without;
  }

  lemma CanonIsCollapsed(env: Env, item: Item, key: string)
    requires env.collapse("") == ""
    ensures Canon(env, item, key) == env.collapse(Meta(item, key))
  {
  }

  lemma NotAltered(env: Env, item: Item, original: Item)
    requires !Altered(env, item, original)
    ensures item.kind == original.kind && env.strip(item.source) == env.strip(original.source)
    ensures env.collapse(item.summary) == env.collapse(original.summary) && item.details == original.details
    ensures env.slashes(if item.artifactPath.Some? then item.artifactPath.value else "") ==
            env.slashes(if original.artifactPath.Some? then original.artifactPath.value else "")
  {
    hide SIGNED_META, Canon;
  }

  lemma NotAlteredAt(env: Env, item: Item, original: Item, key: string)
    requires env.collapse("") == "" && !Altered(env, item, original) && key in SIGNED_META
    ensures env.collapse(Meta(item, key)) == env.collapse(Meta(original, key))
  {
    hide SIGNED_META;
    var k :| 0 <= k < |SIGNED_META| && SIGNED_META[k] == key;
    assert Canon(env, item, SIGNED_META[k]) == Canon(env, original, SIGNED_META[k]);
    CanonIsCollapsed(env, item, key);
    CanonIsCollapsed(env, original, key);
  }

  /** No blanks to normalise in the fields that are compared as they stand. */
  predicate Collapsed(env: Env, item: Item) {
    forall key :: key in {"finding_id", "finding_key", "project_id", "observed_target", "execution_id", "outcome",
                          "reproduced", "contradicts", "reached", "line"} ==>
      env.collapse(Meta(item, key)) == Meta(item, key)
  }

  /**
   Such a record is bound to the same findings as the observation whose signature it carries, contradicts and reproduces
   as that one does, and is the same event.
   */
  lemma RestoredActsAsOriginal(env: Env, original: Item, item: Item, objectId: string)
    requires Signs(env) && Collisionless(env) && env.collapse("") == ""
    requires Constructed(env, original) && item.stamp.None? && WellFormed(env, item)
    requires TruthyMeta(item, "observation_signature") == original.stamp.value.signature
    requires Restore(env, item, objectId).Ok? && IsTrusted(env, Restore(env, item, objectId).value)
    requires Collapsed(env, item) && Collapsed(env, original)
    ensures var r := Restore(env, item, objectId).value;
            && (forall b :: BoundTo(r, b) <==> BoundTo(original, b))
            && (Contradicts(env, r) <==> Contradicts(env, original))
            && (PositiveReproduction(env, r) <==> PositiveReproduction(env, original))
            && ObservationIdentity(env, r) == ObservationIdentity(env, original)
  {
    hide *;
    RestoredIsOriginal(env, original, item, objectId);
    var r := Restore(env, item, objectId).value;
    SameReads(env, r, item, original);
    SameRawActs(env, r, original);
    SameFieldsSameEvent(env, r, original);
  }

  /** The fields compared as they stand are equal. */
  predicate SameRaw(a: Item, c: Item) {
    forall key :: key in {"finding_id", "finding_key", "project_id", "observed_target", "execution_id", "outcome",
                          "reproduced", "contradicts", "reached", "line"} ==>
      Meta(a, key) == Meta(c, key)
  }

  lemma SameReads(env: Env, r: Item, item: Item, original: Item)
    requires Collapsed(env, item) && Collapsed(env, original)
    requires forall key :: key in {
                 "argument_index", "check_id", "contradicts", "event", "execution_id", "field_path", "finding_id",
                 "finding_key", "line", "method", "observed_target", "outcome", "project_id", "reached", "reproduced",
                 "result_id", "route", "rule", "rule_id", "scope_id", "session_id", "sink", "sink_occurrence", "status",
                 "status_code", "target", "url"} ==>
               Meta(r, key) == Meta(item, key) && env.collapse(Meta(r, key)) == env.collapse(Meta(original, key))
    ensures SameRaw(r, original)
  {
    hide Meta;
    forall key | key in {"finding_id", "finding_key", "project_id", "observed_target", "execution_id", "outcome",
                         "reproduced", "contradicts", "reached", "line"}
      ensures Meta(r, key) == Meta(original, key)
    {
      assert env.collapse(Meta(item, key)) == Meta(item, key) && env.collapse(Meta(original, key)) == Meta(original, key);
    }
  }

  lemma SameRawActs(env: Env, a: Item, c: Item)
    requires a.kind == c.kind && SameRaw(a, c)
    ensures forall b :: BoundTo(a, b) <==> BoundTo(c, b)
    ensures Contradicts(env, a) <==> Contradicts(env, c)
    ensures PositiveReproduction(env, a) <==> PositiveReproduction(env, c)
  {
    RawReads(a, c);
    hide Meta, SameRaw;
    assert Contradicts(env, a) <==> Contradicts(env, c);
    PositiveIff(env, a);
    PositiveIff(env, c);
    hide Contradicts, PositiveReproduction;
  }

  lemma SameFieldsSameEvent(env: Env, a: Item, c: Item)
    requires a.kind == c.kind && env.strip(a.source) == env.strip(c.source)
    requires env.collapse(a.summary) == env.collapse(c.summary) && a.details == c.details
    requires env.slashes(if a.artifactPath.Some? then a.artifactPath.value else "") ==
             env.slashes(if c.artifactPath.Some? then c.artifactPath.value else "")
    requires SameRaw(a, c)
    requires forall key :: key in {
               "argument_index", "check_id", "contradicts", "event", "execution_id", "field_path", "finding_id",
               "finding_key", "line", "method", "observed_target", "outcome", "project_id", "reached", "reproduced",
               "result_id", "route", "rule", "rule_id", "scope_id", "session_id", "sink", "sink_occurrence", "status",
               "status_code", "target", "url"} ==>
               env.collapse(Meta(a, key)) == env.collapse(Meta(c, key))
    ensures ObservationIdentity(env, a) == ObservationIdentity(env, c)
  {
    hide *;
    SameEventIff(env, a, c);
    RawReads(a, c);
    TypeFieldsAgree(env, a, c);
  }

  lemma RawReads(a: Item, c: Item)
    requires SameRaw(a, c)
    ensures Meta(a, "line") == Meta(c, "line") && Meta(a, "contradicts") == Meta(c, "contradicts")
    ensures Meta(a, "reached") == Meta(c, "reached") && Meta(a, "execution_id") == Meta(c, "execution_id")
    ensures Meta(a, "outcome") == Meta(c, "outcome") && Meta(a, "finding_id") == Meta(c, "finding_id")
    ensures Meta(a, "finding_key") == Meta(c, "finding_key") && Meta(a, "project_id") == Meta(c, "project_id")
    ensures Meta(a, "observed_target") == Meta(c, "observed_target") && Meta(a, "reproduced") == Meta(c, "reproduced")
  {
    hide Meta;
  }

  lemma TypeFieldsAgree(env: Env, a: Item, c: Item)
    requires a.kind == c.kind
    requires forall key :: key in {
               "argument_index", "check_id", "contradicts", "event", "execution_id", "field_path", "finding_id",
               "finding_key", "line", "method", "observed_target", "outcome", "project_id", "reached", "reproduced",
               "result_id", "route", "rule", "rule_id", "scope_id", "session_id", "sink", "sink_occurrence", "status",
               "status_code", "target", "url"} ==>
               env.collapse(Meta(a, key)) == env.collapse(Meta(c, key))
    ensures SameTypeFields(env, a.kind, a.metadata, c.metadata)
  {
    hide *;
    var m, n := a.metadata, c.metadata;
    RequestFieldsAgree(env, a, c);
    RuleFieldsAgree(env, a, c);
    EitherAgrees(env, m, n, "url", "route");
    EitherAgrees(env, m, n, "route", "url");
    EitherAgrees(env, m, n, "status", "status_code");
    EitherAgrees(env, m, n, "check_id", "rule_id");
    EitherAgrees(env, m, n, "rule", "sink");
    AllTypeFields(env, a.kind, m, n);
  }

  lemma RequestFieldsAgree(env: Env, a: Item, c: Item)
    requires forall key :: key in {
               "argument_index", "check_id", "contradicts", "event", "execution_id", "field_path", "finding_id",
               "finding_key", "line", "method", "observed_target", "outcome", "project_id", "reached", "reproduced",
               "result_id", "route", "rule", "rule_id", "scope_id", "session_id", "sink", "sink_occurrence", "status",
               "status_code", "target", "url"} ==>
               env.collapse(Meta(a, key)) == env.collapse(Meta(c, key))
    ensures var m, n := a.metadata, c.metadata;
            && SameNorm(env, m, n, "method") && SameNorm(env, m, n, "url") && SameNorm(env, m, n, "route")
            && SameNorm(env, m, n, "status") && SameNorm(env, m, n, "status_code") && SameNorm(env, m, n, "target")
            && SameNorm(env, m, n, "event") && SameNorm(env, m, n, "session_id") && SameNorm(env, m, n, "reproduced")
            && SameNorm(env, m, n, "result_id")
  {
    hide *;
    Agree(env, a, c, "method", "url");
    Agree(env, a, c, "route", "status");
    Agree(env, a, c, "status_code", "target");
    Agree(env, a, c, "result_id", "event");
    Agree(env, a, c, "session_id", "reproduced");
  }

  lemma RuleFieldsAgree(env: Env, a: Item, c: Item)
    requires forall key :: key in {
               "argument_index", "check_id", "contradicts", "event", "execution_id", "field_path", "finding_id",
               "finding_key", "line", "method", "observed_target", "outcome", "project_id", "reached", "reproduced",
               "result_id", "route", "rule", "rule_id", "scope_id", "session_id", "sink", "sink_occurrence", "status",
               "status_code", "target", "url"} ==>
               env.collapse(Meta(a, key)) == env.collapse(Meta(c, key))
    ensures var m, n := a.metadata, c.metadata;
            && SameNorm(env, m, n, "observed_target") && SameNorm(env, m, n, "rule") && SameNorm(env, m, n, "sink")
            && SameNorm(env, m, n, "field_path") && SameNorm(env, m, n, "sink_occurrence")
            && SameNorm(env, m, n, "scope_id") && SameNorm(env, m, n, "argument_index")
            && SameNorm(env, m, n, "check_id") && SameNorm(env, m, n, "rule_id")
  {
    hide *;
    Agree(env, a, c, "observed_target", "rule");
    Agree(env, a, c, "sink", "field_path");
    Agree(env, a, c, "sink_occurrence", "scope_id");
    Agree(env, a, c, "argument_index", "check_id");
    Agree(env, a, c, "rule_id", "rule_id");
  }

  lemma AllTypeFields(env: Env, kind: Kind, m: Metadata, n: Metadata)
    requires SameNorm(env, m, n, "method") && SameNorm(env, m, n, "target") && SameNorm(env, m, n, "result_id")
    requires SameNorm(env, m, n, "event") && SameNorm(env, m, n, "session_id") && SameNorm(env, m, n, "reproduced")
    requires SameNorm(env, m, n, "observed_target") && SameNorm(env, m, n, "field_path")
    requires SameNorm(env, m, n, "sink_occurrence") && SameNorm(env, m, n, "scope_id") && SameNorm(env, m, n, "argument_index")
    requires SameEither(env, m, n, "url", "route") && SameEither(env, m, n, "route", "url")
    requires SameEither(env, m, n, "status", "status_code") && SameEither(env, m, n, "check_id", "rule_id")
    requires SameEither(env, m, n, "rule", "sink")
    ensures SameTypeFields(env, kind, m, n)
  {
    hide SameNorm, SameEither;
  }

  lemma EitherAgrees(env: Env, m: Metadata, n: Metadata, first: string, second: string)
    requires SameNorm(env, m, n, first) && SameNorm(env, m, n, second)
    ensures SameEither(env, m, n, first, second)
  {
    hide Norm;
  }

  lemma Agree(env: Env, a: Item, c: Item, first: string, second: string)
    requires env.collapse(Meta(a, first)) == env.collapse(Meta(c, first))
    requires env.collapse(Meta(a, second)) == env.collapse(Meta(c, second))
    ensures SameNorm(env, a.metadata, c.metadata, first) && SameNorm(env, a.metadata, c.metadata, second)
  {
    hide Norm, Meta;
    NormIs(env, a, first);
    NormIs(env, c, first);
    NormIs(env, a, second);
    NormIs(env, c, second);
  }

  lemma NormIs(env: Env, item: Item, key: string)
    ensures Norm(env, item.metadata, key) == env.lower(env.collapse(Meta(item, key)))
  {
  }
}
