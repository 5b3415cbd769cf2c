/**
 `backend/app/domain/findings.py` and `target_identity.py`: the lifecycle of a security finding.

 A finding is a value.  A transition checks its guard against the finding as it is, then builds the new finding,
 whose constructor checks the new status against the target computed from the new evidence.
 */
module Findings {
  import opened Options
  import opened Evidence
  import opened TrustedEvidence
  import opened LifecyclePolicy

  datatype Status = Potential | Corroborated | Reproduced | Verified | HumanAccepted | Rejected

  datatype Review = Unreviewed | InReview | Accepted | Dismissed

  datatype Tier = AiHypothesis | StaticIndicator | CorroboratedTier | ReproducedTier | VerifiedTier

  /** The fields that guards, identity and transitions read or write. */
  datatype Finding = Finding(
    id: string,
    title: string,
    status: Status,
    path: Option<string>,
    vulnerabilityClass: string,
    flowSink: string,
    flowSource: string,
    fieldPath: string,
    findingKey: string,
    projectId: string,
    evidence: seq<Item>,
    review: Review,
    tier: Tier)

  /** Why a transition raises: its status, its guard, the new finding's constructor, or a signature that is broken. */
  datatype Refusal = WrongStatus | Unsupported | Inconsistent | BrokenSignature

  // ----- the semantic target -----------------------------------------------------------------------------------

  /** `_norm(meta.get(key))`. */
  function NormOf(env: Env, item: Item, key: string): string {
    env.collapse(TruthyMeta(item, key))
  }

  /** The first non-empty value of `key` among the static observations. */
  function FirstOf(env: Env, items: seq<Item>, key: string): string {
    if items == [] then ""
    else if items[0].kind == StaticAnalysis && NormOf(env, items[0], key) != "" then NormOf(env, items[0], key)
    else FirstOf(env, items[1..], key)
  }

  function TargetParts(env: Env, f: Finding): Target {
    Target(env.collapse(f.projectId),
           if f.path.Some? && f.path.value != "" then env.trimPath(env.slashes(f.path.value)) else "",
           env.collapse(f.vulnerabilityClass), env.collapse(f.flowSink), env.collapse(f.flowSource),
           env.collapse(f.fieldPath), FirstOf(env, f.evidence, "scope_id"), FirstOf(env, f.evidence, "argument_index"),
           FirstOf(env, f.evidence, "sink_occurrence"), FirstOf(env, f.evidence, "sink_id"),
           FirstOf(env, f.evidence, "call_identity"))
  }

  function TargetOf(env: Env, f: Finding): string {
    env.targetHash(TargetParts(env, f))
  }

  /** `semantic_target_identity`. */
  method SemanticTargetIdentity(env: Env, f: Finding) returns (id: string)
    ensures id == TargetOf(env, f)
  {
    hide NormOf;
    var path := "";
    if f.path.Some? && f.path.value != "" { path := env.trimPath(env.slashes(f.path.value)); }
    var scope, argument, occurrence, sinkId, callIdentity := "", "", "", "", "";
    for k := 0 to |f.evidence|
      invariant Either(scope, FirstOf(env, f.evidence[k..], "scope_id")) == FirstOf(env, f.evidence, "scope_id")
      invariant Either(argument, FirstOf(env, f.evidence[k..], "argument_index")) == FirstOf(env, f.evidence, "argument_index")
      invariant Either(occurrence, FirstOf(env, f.evidence[k..], "sink_occurrence")) == FirstOf(env, f.evidence, "sink_occurrence")
      invariant Either(sinkId, FirstOf(env, f.evidence[k..], "sink_id")) == FirstOf(env, f.evidence, "sink_id")
      invariant Either(callIdentity, FirstOf(env, f.evidence[k..], "call_identity")) == FirstOf(env, f.evidence, "call_identity")
    {
      var item := f.evidence[k];
      assert f.evidence[k..][1..] == f.evidence[k + 1..];
      if item.kind != StaticAnalysis { continue; }
      scope := Either(scope, NormOf(env, item, "scope_id"));
      argument := Either(argument, NormOf(env, item, "argument_index"));
      occurrence := Either(occurrence, NormOf(env, item, "sink_occurrence"));
      sinkId := Either(sinkId, NormOf(env, item, "sink_id"));
      callIdentity := Either(callIdentity, NormOf(env, item, "call_identity"));
    }
    id := env.targetHash(Target(env.collapse(f.projectId), path, env.collapse(f.vulnerabilityClass),
      env.collapse(f.flowSink), env.collapse(f.flowSource), env.collapse(f.fieldPath),
      scope, argument, occurrence, sinkId, callIdentity));
  }

  function BindingOf(env: Env, f: Finding): Binding {
    Binding(TargetOf(env, f), f.id, f.findingKey, f.projectId)
  }

  // ----- the constructor ---------------------------------------------------------------------------------------

  predicate HasReproduction(env: Env, items: seq<Item>, targetId: string) {
    exists k :: 0 <= k < |items| && ReproductionFor(env, items[k], targetId)
  }

  /** What `__post_init__` demands of the status. */
  predicate Consistent(env: Env, f: Finding) {
    && (f.status == Reproduced ==> HasReproduction(env, f.evidence, TargetOf(env, f)))
    && (f.status == Verified ==> HasVerifying(env, f.evidence, BindingOf(env, f)))
    && (f.status == HumanAccepted ==>
          HasReproduction(env, f.evidence, TargetOf(env, f)) || HasVerifying(env, f.evidence, BindingOf(env, f)))
  }

  /** A finding that can exist: its constructor did not raise. */
  predicate Constructible(env: Env, f: Finding) {
    env.strip(f.title) != "" && Consistent(env, f)
  }

  function Construct(env: Env, f: Finding): Result<Finding, Refusal> {
    if Constructible(env, f) then Ok(f) else Err(Inconsistent)
  }

  // ----- transitions -------------------------------------------------------------------------------------------

  datatype Action =
    | Verify(extra: Option<seq<Item>>)
    | Corroborate
    | Reproduce(extra: Option<seq<Item>>)
    | HumanAccept
    | Reject(extra: Option<seq<Item>>)
    | WithReview(state: Review)

  function Extra(extra: Option<seq<Item>>): seq<Item> {
    if extra.Some? then extra.value else []
  }

  /** A record rebuilt with other metadata; a signed record is checked again. */
  function ReplaceMetadata(env: Env, item: Item, metadata: Metadata): Result<Item, Refusal> {
    if item.stamp.None? then Ok(item.(metadata := metadata))
    else
      var made := MakeObservation(env, item.(metadata := metadata), item.stamp.value.observationId, item.stamp.value.signature);
      if made.Ok? then Ok(made.value) else Err(BrokenSignature)
  }

  predicate NeedsStamp(env: Env, item: Item, targetId: string) {
    PositiveReproduction(env, item) && targetId != "" && TruthyMeta(item, "observed_target") == ""
  }

  function StampOne(env: Env, item: Item, targetId: string): Result<Item, Refusal> {
    if NeedsStamp(env, item, targetId) then
      ReplaceMetadata(env, item, item.metadata["observed_target" := Str(targetId)])
    else Ok(item)
  }

  function StampAll(env: Env, items: seq<Item>, targetId: string): Result<seq<Item>, Refusal> {
    if items == [] then Ok([])
    else
      var one := StampOne(env, items[0], targetId);
      if one.Err? then Err(one.error)
      else
        var rest := StampAll(env, items[1..], targetId);
        if rest.Err? then rest else Ok([one.value] + rest.value)
  }

  /** `_stamp_reproductions`. */
  method StampReproductions(env: Env, items: seq<Item>, targetId: string) returns (r: Result<seq<Item>, Refusal>)
    ensures r == StampAll(env, items, targetId)
  {
    hide StampOne;
    var stamped: seq<Item> := [];
    assert items[0..] == items;
    StampAllPrepend(env, items, targetId);
    for k := 0 to |items|
      invariant var rest := StampAll(env, items[k..], targetId);
                StampAll(env, items, targetId) == if rest.Ok? then Ok(stamped + rest.value) else rest
    {
      assert items[k..][1..] == items[k + 1..];
      var one := StampOne(env, items[k], targetId);
      if one.Err? { return Err(one.error); }
      var rest := StampAll(env, items[k + 1..], targetId);
      if rest.Ok? { assert stamped + ([one.value] + rest.value) == stamped + [one.value] + rest.value; }
      stamped := stamped + [one.value];
    }
    assert stamped + [] == stamped;
    r := Ok(stamped);
  }

  lemma StampAllPrepend(env: Env, items: seq<Item>, targetId: string)
    ensures var r := StampAll(env, items, targetId); r.Ok? ==> [] + r.value == r.value
  {
  }

  function Apply(env: Env, f: Finding, a: Action): Result<Finding, Refusal> {
    match a
    case Verify(extra) =>
      if f.status in {Rejected, HumanAccepted} then Err(WrongStatus)
      else if !HasVerifying(env, f.evidence + Extra(extra), BindingOf(env, f)) then Err(Unsupported)
      else Construct(env, f.(status := Verified, evidence := f.evidence + Extra(extra), tier := VerifiedTier))
    case Corroborate =>
      if f.status in {Rejected, Verified, HumanAccepted, Reproduced} then Err(WrongStatus)
      else if !Corroborates(env, f.evidence, BindingOf(env, f)) then Err(Unsupported)
      else Construct(env, f.(status := Corroborated, tier := CorroboratedTier))
    case Reproduce(extra) =>
      if f.status in {Rejected, Verified, HumanAccepted} then Err(WrongStatus)
      else
        var target := TargetOf(env, f);
        var merged := StampAll(env, f.evidence + Extra(extra), target);
        if merged.Err? then Err(merged.error)
        else if !HasReproduction(env, merged.value, target) then Err(Unsupported)
        else Construct(env, f.(status := Reproduced, evidence := merged.value, tier := ReproducedTier))
    case HumanAccept =>
      if f.status !in {Reproduced, Verified, HumanAccepted} then Err(WrongStatus)
      else if !(HasReproduction(env, f.evidence, TargetOf(env, f)) || HasVerifying(env, f.evidence, BindingOf(env, f))) then
        Err(Unsupported)
      else Construct(env, f.(status := HumanAccepted, review := Accepted, tier := VerifiedTier))
    case Reject(extra) =>
      Construct(env, f.(status := Rejected, evidence := f.evidence + Extra(extra)))
    case WithReview(state) =>
      Construct(env, f.(review := state))
  }

  /** A transition that raises leaves the caller with the finding it had. */
  function After(env: Env, f: Finding, a: Action): Finding {
    var r := Apply(env, f, a);
    if r.Ok? then r.value else f
  }

  function Run(env: Env, f: Finding, actions: seq<Action>): Finding
    decreases |actions|
  {
    if actions == [] then f else Run(env, After(env, f, actions[0]), actions[1..])
  }
}
