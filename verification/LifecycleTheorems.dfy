/**
 What holds over every run of lifecycle transitions: the constructor's demands, the order of statuses, the history
 of the evidence, when a transition can fail after its guard has passed, and that AI text never counts.
 */
module LifecycleTheorems {
  import opened Options
  import opened Evidence
  import opened TrustedEvidence
  import opened LifecyclePolicy
  import opened Findings

  // ----- reachable findings --------------------------------------------------------------------------------------

  lemma ApplyConstructs(env: Env, f: Finding, a: Action)
    ensures Apply(env, f, a).Ok? ==> Constructible(env, Apply(env, f, a).value)
  {
    hide Constructible, TargetOf, HasVerifying, HasReproduction, Corroborates, StampAll;
  }

  /** Whatever is done to it, a finding keeps meeting its constructor's demands. */
  lemma {:induction false} RunStaysConstructible(env: Env, f: Finding, actions: seq<Action>)
    requires Constructible(env, f)
    ensures Constructible(env, Run(env, f, actions))
    decreases |actions|
  {
    hide Apply, Constructible;
    if actions != [] {
      ApplyConstructs(env, f, actions[0]);
      RunStaysConstructible(env, After(env, f, actions[0]), actions[1..]);
    }
  }

  function Rank(s: Status): nat {
    match s
    case Potential => 0
    case Corroborated => 1
    case Reproduced => 2
    case Verified => 3
    case HumanAccepted => 4
    case Rejected => 5
  }

  lemma ApplyNeverDemotes(env: Env, f: Finding, a: Action)
    ensures Apply(env, f, a).Ok? ==> Rank(f.status) <= Rank(Apply(env, f, a).value.status)
  {
    hide Constructible, TargetOf, HasVerifying, HasReproduction, Corroborates, StampAll;
  }

  /** The status never goes down, and a rejected finding stays rejected. */
  lemma {:induction false} RunNeverDemotes(env: Env, f: Finding, actions: seq<Action>)
    ensures Rank(f.status) <= Rank(Run(env, f, actions).status)
    ensures f.status == Rejected ==> Run(env, f, actions).status == Rejected
    decreases |actions|
  {
    hide Apply;
    if actions != [] {
      ApplyNeverDemotes(env, f, actions[0]);
      RunNeverDemotes(env, After(env, f, actions[0]), actions[1..]);
    }
  }

  // ----- the history of the evidence -------------------------------------------------------------------------------

  /** The record is as it was, or its empty observed target was filled in. */
  ghost predicate Kept(before: Item, after: Item) {
    after == before || Filled(before, after)
  }

  ghost predicate Filled(before: Item, after: Item) {
    && TruthyMeta(before, "observed_target") == "" && TruthyMeta(after, "observed_target") != ""
    && after == before.(metadata := after.metadata, stamp := after.stamp)
    && forall key :: key !in MARKERS + {"observed_target"} ==> SameAt(before.metadata, after.metadata, key)
  }

  predicate SameAt(m: Metadata, n: Metadata, key: string) {
    (key in m <==> key in n) && (key in m ==> n[key] == m[key])
  }

  /** A target filled in is never rewritten. */
  lemma KeptTransitive(a: Item, b: Item, c: Item)
    requires Kept(a, b) && Kept(b, c)
    ensures Kept(a, c)
  {
    hide MARKERS, TruthyMeta;
  }

  lemma StampKeeps(env: Env, item: Item, targetId: string)
    ensures var r := StampOne(env, item, targetId);
            && (r.Err? ==> r.error == BrokenSignature)
            && (r.Ok? ==> Kept(item, r.value) && r.value.kind == item.kind)
            && (r.Ok? && targetId != "" && PositiveReproduction(env, r.value) ==> TruthyMeta(r.value, "observed_target") != "")
  {
    hide PositiveReproduction, Sign, WellFormed;
    assert "observation_signature" in MARKERS && "server_observation_id" in MARKERS;
    assert "observation_signature" != "observed_target" && "server_observation_id" != "observed_target";
    hide MARKERS;
    if NeedsStamp(env, item, targetId) {
      var r := ReplaceMetadata(env, item, item.metadata["observed_target" := Str(targetId)]);
      if r.Ok? {
        assert TruthyMeta(r.value, "observed_target") == targetId;
        assert forall key :: key !in MARKERS + {"observed_target"} ==> SameAt(item.metadata, r.value.metadata, key);
      }
    } else if PositiveReproduction(env, item) && targetId != "" {
      assert TruthyMeta(item, "observed_target") != "";
    }
  }

  lemma {:induction false} StampAllKeeps(env: Env, items: seq<Item>, targetId: string)
    ensures var r := StampAll(env, items, targetId);
            && (r.Err? ==> r.error == BrokenSignature)
            && (r.Ok? ==> |r.value| == |items| && forall k :: 0 <= k < |items| ==>
                  && Kept(items[k], r.value[k]) && r.value[k].kind == items[k].kind
                  && (targetId != "" && PositiveReproduction(env, r.value[k]) ==> TruthyMeta(r.value[k], "observed_target") != ""))
  {
    hide StampOne, Kept, PositiveReproduction, TruthyMeta;
    if items != [] {
      StampKeeps(env, items[0], targetId);
      StampAllKeeps(env, items[1..], targetId);
    }
  }

  lemma {:induction false} NothingToStamp(env: Env, items: seq<Item>, targetId: string)
    requires forall k :: 0 <= k < |items| ==> !NeedsStamp(env, items[k], targetId)
    ensures StampAll(env, items, targetId) == Ok(items)
  {
    hide NeedsStamp;
    if items != [] {
      NothingToStamp(env, items[1..], targetId);
      assert [items[0]] + items[1..] == items;
    }
  }

  /** Stamped evidence is not stamped again, whatever the target has become. */
  lemma StampingIsIdempotent(env: Env, items: seq<Item>, targetId: string, laterId: string)
    requires targetId != ""
    ensures var r := StampAll(env, items, targetId);
            r.Ok? ==> StampAll(env, r.value, laterId) == Ok(r.value)
  {
    StampAllKeeps(env, items, targetId);
    hide PositiveReproduction, TruthyMeta, Kept, StampAll;
    var r := StampAll(env, items, targetId);
    if r.Ok? {
      assert forall k :: 0 <= k < |r.value| ==> !NeedsStamp(env, r.value[k], laterId);
      NothingToStamp(env, r.value, laterId);
    }
  }

  /** `after` begins with the records of `before`, each kept. */
  ghost predicate Grown(before: seq<Item>, after: seq<Item>) {
    |before| <= |after| && forall k :: 0 <= k < |before| ==> Kept(before[k], after[k])
  }

  lemma ApplyKeepsEvidence(env: Env, f: Finding, a: Action)
    ensures Apply(env, f, a).Ok? ==> Grown(f.evidence, Apply(env, f, a).value.evidence)
  {
    if a.Reproduce? { StampAllKeeps(env, f.evidence + Extra(a.extra), TargetOf(env, f)); }
    hide Constructible, TargetOf, HasVerifying, HasReproduction, Corroborates, StampAll, Filled, PositiveReproduction, TruthyMeta;
  }

  /** Evidence is never lost or reordered, and changes only by having an empty target filled in, once. */
  lemma {:induction false} RunKeepsEvidence(env: Env, f: Finding, actions: seq<Action>)
    ensures Grown(f.evidence, Run(env, f, actions).evidence)
    decreases |actions|
  {
    hide Apply, Kept;
    if actions == [] {
      GrownRefl(f.evidence);
    } else {
      var g := After(env, f, actions[0]);
      ApplyKeepsEvidence(env, f, actions[0]);
      GrownRefl(f.evidence);
      RunKeepsEvidence(env, g, actions[1..]);
      forall k | 0 <= k < |f.evidence| ensures Kept(f.evidence[k], Run(env, f, actions).evidence[k]) {
        KeptTransitive(f.evidence[k], g.evidence[k], Run(env, f, actions).evidence[k]);
      }
    }
  }

  lemma GrownRefl(items: seq<Item>)
    ensures Grown(items, items)
  {
    hide Filled;
  }

  // ----- guards and the constructor -----------------------------------------------------------------------------------

  lemma {:induction false} FirstOfAppended(env: Env, a: seq<Item>, b: seq<Item>, key: string)
    ensures FirstOf(env, a + b, key) == Either(FirstOf(env, a, key), FirstOf(env, b, key))
  {
    hide NormOf;
    if a == [] {
      assert a + b == b;
    } else {
      assert (a + b)[1..] == a[1..] + b;
      FirstOfAppended(env, a[1..], b, key);
    }
  }

  predicate NoStatic(items: seq<Item>) {
    forall k :: 0 <= k < |items| ==> items[k].kind != StaticAnalysis
  }

  lemma {:induction false} FirstOfNoStatic(env: Env, items: seq<Item>, key: string)
    requires NoStatic(items)
    ensures FirstOf(env, items, key) == ""
  {
    if items != [] { FirstOfNoStatic(env, items[1..], key); }
  }

  const TARGET_KEYS: set<string> := {"scope_id", "argument_index", "sink_occurrence", "sink_id", "call_identity"}

  /** Every part of the target that evidence can set is set. */
  predicate TargetSettled(env: Env, f: Finding) {
    forall key :: key in TARGET_KEYS ==> FirstOf(env, f.evidence, key) != ""
  }

  /** Adding evidence leaves the semantic target alone if it has nothing static or nothing is left to set. */
  lemma TargetUnchanged(env: Env, f: Finding, extra: seq<Item>)
    requires NoStatic(extra) || TargetSettled(env, f)
    ensures TargetOf(env, f.(evidence := f.evidence + extra)) == TargetOf(env, f)
  {
    hide FirstOf;
    forall key | key in TARGET_KEYS ensures FirstOf(env, f.evidence + extra, key) == FirstOf(env, f.evidence, key) {
      FirstOfAppended(env, f.evidence, extra, key);
      if NoStatic(extra) { FirstOfNoStatic(env, extra, key); }
    }
  }

  /** Stamping touches reproductions only, so it leaves the target alone. */
  lemma {:induction false} FirstOfStamped(env: Env, items: seq<Item>, targetId: string, key: string)
    ensures var r := StampAll(env, items, targetId);
            r.Ok? ==> FirstOf(env, r.value, key) == FirstOf(env, items, key)
  {
    hide NormOf, ReplaceMetadata, Kept;
    if items != [] {
      StampKeeps(env, items[0], targetId);
      var r := StampAll(env, items, targetId);
      FirstOfStamped(env, items[1..], targetId, key);
      assert PositiveReproduction(env, items[0]) ==> items[0].kind == Reproduction;
      if r.Ok? {
        assert r.value[1..] == StampAll(env, items[1..], targetId).value;
      }
    }
  }

  lemma TargetOfParts(env: Env, f: Finding, items: seq<Item>, other: seq<Item>)
    requires forall key :: key in TARGET_KEYS ==> FirstOf(env, items, key) == FirstOf(env, other, key)
    ensures TargetOf(env, f.(evidence := items)) == TargetOf(env, f.(evidence := other))
  {
    hide FirstOf;
  }

  lemma TargetOfStatus(env: Env, f: Finding, g: Finding)
    requires g == f.(status := g.status, tier := g.tier, review := g.review)
    ensures TargetOf(env, g) == TargetOf(env, f) && BindingOf(env, g) == BindingOf(env, f)
  {
  }

  /** What `verify` and `reproduce` would attach. */
  function Merged(f: Finding, extra: Option<seq<Item>>): Finding {
    f.(evidence := f.evidence + Extra(extra))
  }

  // ----- what moves the target ----------------------------------------------------------------------------------------

  /** Different targets have different hashes. */
  ghost predicate Distinguishing(env: Env) {
    forall s, t :: env.targetHash(s) == env.targetHash(t) ==> s == t
  }

  /** The additions are the first to set `key`. */
  predicate Sets(env: Env, f: Finding, extra: seq<Item>, key: string) {
    FirstOf(env, f.evidence, key) == "" && FirstOf(env, extra, key) != ""
  }

  /** Some part of the target that was empty is set by a static observation among the additions. */
  predicate Moves(env: Env, f: Finding, extra: seq<Item>) {
    exists key :: key in TARGET_KEYS && Sets(env, f, extra, key)
  }

  /** Adding evidence moves the target exactly if it is the first to set one of the five parts that evidence can set. */
  lemma TargetMovesIff(env: Env, f: Finding, extra: seq<Item>)
    requires Distinguishing(env)
    ensures TargetOf(env, f.(evidence := f.evidence + extra)) != TargetOf(env, f) <==> Moves(env, f, extra)
  {
    hide FirstOf;
    forall key ensures FirstOf(env, f.evidence + extra, key) == Either(FirstOf(env, f.evidence, key), FirstOf(env, extra, key)) {
      FirstOfAppended(env, f.evidence, extra, key);
    }
    var g := f.(evidence := f.evidence + extra);
    if !Moves(env, f, extra) {
      forall key | key in TARGET_KEYS ensures FirstOf(env, g.evidence, key) == FirstOf(env, f.evidence, key) {
        assert !Sets(env, f, extra, key);
      }
      TargetOfParts(env, f, g.evidence, f.evidence);
      assert f.(evidence := f.evidence) == f;
    } else {
      var key :| key in TARGET_KEYS && Sets(env, f, extra, key);
      PartsDiffer(env, f, g, key);
    }
  }

  lemma PartsDiffer(env: Env, f: Finding, g: Finding, key: string)
    requires key in TARGET_KEYS && FirstOf(env, f.evidence, key) != FirstOf(env, g.evidence, key)
    ensures TargetParts(env, f) != TargetParts(env, g)
  {
    hide FirstOf;
  }

  /** A guard that held for the old target can only fail for the new one if the target has moved. */
  lemma VerifyFailsAfterMove(env: Env, f: Finding, extra: Option<seq<Item>>)
    requires Constructible(env, f) && Apply(env, f, Verify(extra)) == Err(Inconsistent)
    ensures f.status !in {Rejected, HumanAccepted}
    ensures TargetOf(env, Merged(f, extra)) != TargetOf(env, f)
  {
    hide TargetOf, HasVerifying, HasReproduction;
    var g := Merged(f, extra);
    TargetOfStatus(env, g, g.(status := Verified, tier := VerifiedTier));
  }

  /**
   `verify` passes its guard and raises in the constructor exactly if the merged evidence verifies for the target as it
   was, the additions hold the first static observation that sets some part of the target, and no merged record verifies
   for the target that makes.
   */
  lemma VerifyInconsistentIff(env: Env, f: Finding, extra: Option<seq<Item>>)
    requires Distinguishing(env) && Constructible(env, f) && f.status !in {Rejected, HumanAccepted}
    ensures var g := Merged(f, extra);
            var moved := BindingOf(env, f).(targetId := TargetOf(env, g));
            Apply(env, f, Verify(extra)) == Err(Inconsistent) <==>
              && HasVerifying(env, g.evidence, BindingOf(env, f))
              && Moves(env, f, Extra(extra))
              && !HasVerifying(env, g.evidence, moved)
  {
    TargetMovesIff(env, f, Extra(extra));
    hide TargetOf, HasVerifying, HasReproduction, Moves;
    var g := Merged(f, extra);
    TargetOfStatus(env, g, g.(status := Verified, tier := VerifiedTier));
    assert BindingOf(env, g) == BindingOf(env, f).(targetId := TargetOf(env, g));
  }

  /** With the target settled, or nothing static added, the guard of `verify` implies the constructor's check. */
  lemma VerifyNeverFailsHalfway(env: Env, f: Finding, extra: Option<seq<Item>>)
    requires Constructible(env, f) && (NoStatic(Extra(extra)) || TargetSettled(env, f))
    ensures Apply(env, f, Verify(extra)) != Err(Inconsistent)
  {
    hide TargetOf, HasVerifying, HasReproduction, TargetSettled, NoStatic;
    TargetUnchanged(env, f, Extra(extra));
    if Apply(env, f, Verify(extra)) == Err(Inconsistent) { VerifyFailsAfterMove(env, f, extra); }
  }

  // ----- reproductions and their stamps ---------------------------------------------------------------------------------

  /** The record is a positive reproduction that names the target before anything is stamped. */
  predicate Names(env: Env, item: Item, targetId: string) {
    ReproductionFor(env, item, targetId) && TruthyMeta(item, "observed_target") != ""
  }

  lemma StampReads(env: Env, item: Item, targetId: string)
    ensures var r := StampOne(env, item, targetId);
            r.Ok? ==>
              && PositiveReproduction(env, r.value) == PositiveReproduction(env, item)
              && (NeedsStamp(env, item, targetId) ==> Meta(r.value, "observed_target") == targetId)
              && (!NeedsStamp(env, item, targetId) ==> r.value == item)
  {
    hide TruthyMeta, MakeObservation, FAILED_OUTCOMES, POSITIVE_OUTCOMES;
    if NeedsStamp(env, item, targetId) {
      var named := item.(metadata := item.metadata["observed_target" := Str(targetId)]);
      if item.stamp.Some? {
        MadeReads(env, named, item.stamp.value.observationId, item.stamp.value.signature);
      }
      NamedReads(item, targetId);
    }
  }

  lemma NamedReads(item: Item, targetId: string)
    ensures var named := item.(metadata := item.metadata["observed_target" := Str(targetId)]);
            && Meta(named, "observed_target") == targetId
            && (forall key :: key in {"contradicts", "reached", "outcome", "reproduced"} ==> Meta(named, key) == Meta(item, key))
  {
  }

  /** Construction leaves what is read of a record alone. */
  lemma MadeReads(env: Env, item: Item, observationId: string, signature: string)
    ensures var r := MakeObservation(env, item, observationId, signature);
            r.Ok? ==>
              && r.value.kind == item.kind
              && (forall key :: key in {"contradicts", "reached", "outcome", "reproduced", "observed_target"} ==>
                    Meta(r.value, key) == Meta(item, key))
  {
    hide Sign, Ascii, WellFormed, TruthyMeta;
  }

  /** After stamping with `t`, a reproduction names `u` if it did before, or was stamped and `u` is `t`. */
  lemma StampNames(env: Env, item: Item, t: string, u: string)
    requires t != "" && StampOne(env, item, t).Ok?
    ensures ReproductionFor(env, StampOne(env, item, t).value, u) <==>
            Names(env, item, u) || (u == t && NeedsStamp(env, item, t))
  {
    hide PositiveReproduction, StampOne;
    StampReads(env, item, t);
  }

  lemma {:induction false} StampedEach(env: Env, items: seq<Item>, t: string)
    requires StampAll(env, items, t).Ok?
    ensures var r := StampAll(env, items, t).value;
            |r| == |items| && forall k :: 0 <= k < |items| ==> StampOne(env, items[k], t) == Ok(r[k])
  {
    hide StampOne;
    if items != [] { StampedEach(env, items[1..], t); }
  }

  lemma StampAllNames(env: Env, items: seq<Item>, t: string, u: string)
    requires t != "" && StampAll(env, items, t).Ok?
    ensures HasReproduction(env, StampAll(env, items, t).value, u) <==>
            exists k :: 0 <= k < |items| && (Names(env, items[k], u) || (u == t && NeedsStamp(env, items[k], t)))
  {
    hide ReproductionFor, Names, NeedsStamp, StampOne, StampAll;
    StampedEach(env, items, t);
    var r := StampAll(env, items, t).value;
    forall k | 0 <= k < |items|
      ensures ReproductionFor(env, r[k], u) <==> Names(env, items[k], u) || (u == t && NeedsStamp(env, items[k], t))
    {
      StampNames(env, items[k], t, u);
    }
  }

  lemma ReproduceUnfolds(env: Env, f: Finding, extra: Option<seq<Item>>)
    requires Constructible(env, f) && f.status !in {Rejected, Verified, HumanAccepted}
    ensures var g := Merged(f, extra);
            var stamped := StampAll(env, g.evidence, TargetOf(env, f));
            && (Apply(env, f, Reproduce(extra)) == Err(Inconsistent) <==>
                  && stamped.Ok? && HasReproduction(env, stamped.value, TargetOf(env, f))
                  && !HasReproduction(env, stamped.value, TargetOf(env, g)))
            && (Apply(env, f, Reproduce(extra)) == Err(Inconsistent) ==> TargetOf(env, g) != TargetOf(env, f))
            && (stamped.Ok? && HasReproduction(env, stamped.value, TargetOf(env, f)) && TargetOf(env, g) == TargetOf(env, f) ==>
                  Apply(env, f, Reproduce(extra)).Ok?)
  {
    hide TargetOf, HasVerifying, HasReproduction, StampAll, FirstOf;
    var g := Merged(f, extra);
    var stamped := StampAll(env, g.evidence, TargetOf(env, f));
    StampAllKeeps(env, g.evidence, TargetOf(env, f));
    if stamped.Ok? {
      forall key | key in TARGET_KEYS ensures FirstOf(env, stamped.value, key) == FirstOf(env, g.evidence, key) {
        FirstOfStamped(env, g.evidence, TargetOf(env, f), key);
      }
      TargetOfParts(env, f, stamped.value, g.evidence);
      var h := f.(evidence := stamped.value);
      TargetOfStatus(env, h, h.(status := Reproduced, tier := ReproducedTier));
    }
  }

  /**
   `reproduce` passes its guard and raises in the constructor exactly if no signature breaks, the merged evidence has a
   positive reproduction that names the target as it was or no target yet, the additions hold the first static
   observation that sets some part of the target, and no merged reproduction already names the target that makes.
   */
  lemma ReproduceInconsistentIff(env: Env, f: Finding, extra: Option<seq<Item>>)
    requires Distinguishing(env) && Constructible(env, f) && f.status !in {Rejected, Verified, HumanAccepted}
    ensures var items := f.evidence + Extra(extra);
            var was, now := TargetOf(env, f), TargetOf(env, Merged(f, extra));
            Apply(env, f, Reproduce(extra)) == Err(Inconsistent) <==>
              && was != "" && StampAll(env, items, was).Ok?
              && (exists k :: 0 <= k < |items| && (Names(env, items[k], was) || NeedsStamp(env, items[k], was)))
              && Moves(env, f, Extra(extra))
              && !(exists k :: 0 <= k < |items| && Names(env, items[k], now))
  {
    TargetMovesIff(env, f, Extra(extra));
    hide TargetOf, StampAll, Names, NeedsStamp, Moves, Constructible, Apply;
    var items := f.evidence + Extra(extra);
    var was, now := TargetOf(env, f), TargetOf(env, Merged(f, extra));
    ReproduceUnfolds(env, f, extra);
    if was == "" {
      assert forall stamped :: !HasReproduction(env, stamped, was);
    } else if StampAll(env, items, was).Ok? {
      StampAllNames(env, items, was, was);
      StampAllNames(env, items, was, now);
    }
  }

  lemma ReproduceNeverFailsHalfway(env: Env, f: Finding, extra: Option<seq<Item>>)
    requires Constructible(env, f) && (NoStatic(Extra(extra)) || TargetSettled(env, f))
    ensures Apply(env, f, Reproduce(extra)) != Err(Inconsistent)
  {
    hide TargetOf, HasVerifying, HasReproduction, TargetSettled, NoStatic, StampAll;
    TargetUnchanged(env, f, Extra(extra));
    StampAllKeeps(env, f.evidence + Extra(extra), TargetOf(env, f));
    if f.status !in {Rejected, Verified, HumanAccepted} { ReproduceUnfolds(env, f, extra); }
  }

  /**
   The other transitions never fail halfway.  The second guard of `human_accept` is redundant: for a finding that
   exists, the status alone decides; rejection and review always succeed.
   */
  lemma StatusAloneDecides(env: Env, f: Finding, extra: Option<seq<Item>>, state: Review)
    requires Constructible(env, f)
    ensures Apply(env, f, HumanAccept).Ok? <==> f.status in {Reproduced, Verified, HumanAccepted}
    ensures Apply(env, f, Reject(extra)).Ok? && Apply(env, f, WithReview(state)).Ok?
    ensures Apply(env, f, Corroborate).Ok? <==>
            f.status in {Potential, Corroborated} && Corroborates(env, f.evidence, BindingOf(env, f))
  {
    hide TargetOf, HasVerifying, HasReproduction, Corroborates;
    TargetOfStatus(env, f, f.(status := HumanAccepted, review := Accepted, tier := VerifiedTier));
    TargetOfStatus(env, f, f.(review := state));
  }

  // ----- transitions that do fail halfway -----------------------------------------------------------------------------

  const UNSET: Finding := Finding("1", "title", Potential, None, "", "", "", "", "", "", [], Unreviewed, StaticIndicator)

  const SCOPE: Item := Item(StaticAnalysis, "s", "s", "", None, map["scope_id" := Str("z")], 0, "s", None)

  const REPRODUCTION: Item := Item(Reproduction, "s", "s", "", None, map["outcome" := Str("reproduced")], 0, "r", None)

  const PLAIN_RESPONSE: Item := Item(HttpResponse, "s", "s", "", None, map[], 0, "h", None)

  /** Text normalisation leaves the few words of the example alone, signatures and hashes are not empty. */
  ghost predicate Ordinary(env: Env) {
    && Signs(env) && Distinguishing(env) && (forall t :: env.targetHash(t) != "")
    && env.strip("title") != "" && env.strip("s") != ""
    && env.collapse("") == "" && env.collapse("z") != ""
    && env.lower("") == "" && env.lower("reproduced") == "reproduced"
  }

  /** A response the server signed for the target that `UNSET` has before any scope is known. */
  function Response(env: Env): Item {
    var target := TargetOf(env, UNSET);
    var plain := PLAIN_RESPONSE.(metadata := map["observed_target" := Str(target), "finding_id" := Str("1")]);
    var signature := Sign(env, plain, "o");
    plain.(metadata := plain.metadata["observation_signature" := Str(signature)]["server_observation_id" := Str("o")],
           stamp := Some(Stamp("o", signature)))
  }

  lemma ResponseIsMade(env: Env)
    requires Ordinary(env)
    ensures Constructed(env, Response(env)) && IsTrusted(env, Response(env))
  {
    var target := TargetOf(env, UNSET);
    var plain := PLAIN_RESPONSE.(metadata := map["observed_target" := Str(target), "finding_id" := Str("1")]);
    hide BodyOf, TargetOf, Distinguishing;
    MadeIsConstructed(env, plain, "o", Sign(env, plain, "o"));
    assert MakeObservation(env, plain, "o", Sign(env, plain, "o")) == Ok(Response(env));
    ConstructedIsTrusted(env, Response(env));
  }

  lemma ResponseMeta(env: Env)
    ensures var response := Response(env);
            && Meta(response, "observed_target") == TargetOf(env, UNSET) && Meta(response, "finding_id") == "1"
            && Meta(response, "finding_key") == "" && Meta(response, "project_id") == ""
            && Meta(response, "contradicts") == "" && Meta(response, "reached") == "" && response.kind == HttpResponse
  {
    hide Sign, TargetOf;
  }

  lemma ResponseReads(env: Env)
    requires Ordinary(env)
    ensures Response(env).kind == HttpResponse && !Contradicts(env, Response(env))
    ensures forall b: Binding :: BoundTo(Response(env), b) <==>
              b.targetId == TargetOf(env, UNSET) && b.findingId == "1" && b.findingKey == "" && b.projectId == ""
  {
    HashNotEmpty(env, UNSET);
    ResponseMeta(env);
    hide Response, TargetOf, Meta, Distinguishing, Signs;
  }

  lemma HashNotEmpty(env: Env, f: Finding)
    requires Ordinary(env)
    ensures TargetOf(env, f) != ""
  {
  }

  /** The scope moves the target, the other two records do not. */
  lemma ScopeMoves(env: Env, item: Item)
    requires Ordinary(env) && item.kind != StaticAnalysis
    ensures TargetOf(env, UNSET.(evidence := [item])) == TargetOf(env, UNSET)
    ensures TargetOf(env, UNSET.(evidence := [item, SCOPE])) != TargetOf(env, UNSET)
    ensures Moves(env, UNSET, [item, SCOPE])
  {
    assert [item, SCOPE][1..] == [SCOPE] && [SCOPE][1..] == [] && [item][1..] == [];
    assert FirstOf(env, [SCOPE], "scope_id") == env.collapse("z");
    assert Sets(env, UNSET, [item, SCOPE], "scope_id");
    hide FirstOf, Sets, Ordinary;
    assert UNSET.evidence + [item, SCOPE] == [item, SCOPE] && UNSET.evidence + [item] == [item];
    TargetMovesIff(env, UNSET, [item, SCOPE]);
    TargetUnchanged(env, UNSET, [item]);
  }

  lemma ResponseVerifies(env: Env, items: seq<Item>, b: Binding)
    requires Ordinary(env) && (items == [Response(env)] || items == [Response(env), SCOPE])
    ensures HasVerifying(env, items, b) <==> BoundTo(Response(env), b)
  {
    ResponseIsMade(env);
    ResponseReads(env);
    hide IsTrusted, Contradicts, BoundTo, SameRun, Response, Ordinary, Constructed;
    assert items[0] == Response(env) && forall k :: 0 < k < |items| ==> items[k] == SCOPE;
    assert !ReproducedIn(env, items, Response(env));
    if BoundTo(Response(env), b) {
      assert Verifies(env, items, items[0], b);
    }
  }

  /**
   The condition above is met: a trusted response for the target as it was, added together with the first static
   observation that names a scope, passes the guard of `verify` and is then refused by the constructor.
   */
  lemma VerifyCanFailHalfway(env: Env)
    requires Ordinary(env)
    ensures Constructible(env, UNSET) && Constructed(env, Response(env))
    ensures Apply(env, UNSET, Verify(Some([Response(env)]))).Ok?
    ensures Apply(env, UNSET, Verify(Some([Response(env), SCOPE]))) == Err(Inconsistent)
  {
    hide *;
    UnsetIsConstructible(env);
    ResponseIsMade(env);
    VerifiesAlone(env);
    ResponseReads(env);
    ScopeMoves(env, Response(env));
    BindingsAre(env, [Response(env), SCOPE]);
    var both := [Response(env), SCOPE];
    UnsetEvidence(both);
    ResponseVerifies(env, both, BindingOf(env, UNSET));
    ResponseVerifies(env, both, BindingOf(env, UNSET).(targetId := TargetOf(env, UNSET.(evidence := both))));
    VerifyInconsistentIff(env, UNSET, Some(both));
  }

  lemma BindingsAre(env: Env, items: seq<Item>)
    ensures BindingOf(env, UNSET) == Binding(TargetOf(env, UNSET), "1", "", "")
    ensures BindingOf(env, UNSET.(evidence := items)) == Binding(TargetOf(env, UNSET.(evidence := items)), "1", "", "")
  {
    hide TargetOf;
  }

  lemma VerifiesAlone(env: Env)
    requires Ordinary(env)
    ensures Apply(env, UNSET, Verify(Some([Response(env)]))).Ok?
  {
    UnsetIsConstructible(env);
    ResponseReads(env);
    ScopeMoves(env, Response(env));
    var alone := [Response(env)];
    BindingsAre(env, alone);
    hide TargetOf, Response, BoundTo, HasVerifying, Moves, Ordinary, IsTrusted, Contradicts, BindingOf;
    UnsetEvidence(alone);
    ResponseVerifies(env, alone, BindingOf(env, UNSET));
    var f := UNSET.(evidence := alone);
    TargetOfStatus(env, f, f.(status := Verified, tier := VerifiedTier));
  }

  /** So does `reproduce`: the reproduction is stamped with the target as it was, and the scope moves it. */
  lemma ReproduceCanFailHalfway(env: Env)
    requires Ordinary(env)
    ensures Constructible(env, UNSET)
    ensures Apply(env, UNSET, Reproduce(Some([REPRODUCTION]))).Ok?
    ensures Apply(env, UNSET, Reproduce(Some([REPRODUCTION, SCOPE]))) == Err(Inconsistent)
  {
    hide *;
    UnsetIsConstructible(env);
    ReproducesAlone(env);
    ScopeMoves(env, REPRODUCTION);
    HashNotEmpty(env, UNSET);
    ReproductionStamped(env, TargetOf(env, UNSET));
    var both := [REPRODUCTION, SCOPE];
    assert both[0] == REPRODUCTION && both[1] == SCOPE;
    UnsetEvidence(both);
    ReproduceInconsistentIff(env, UNSET, Some(both));
  }

  lemma UnsetEvidence(extra: seq<Item>)
    ensures UNSET.evidence + Extra(Some(extra)) == extra && Extra(Some(extra)) == extra
    ensures UNSET.status == Potential && Merged(UNSET, Some(extra)) == UNSET.(evidence := extra)
  {
  }

  lemma UnsetIsConstructible(env: Env)
    requires Ordinary(env)
    ensures Constructible(env, UNSET) && Distinguishing(env) && REPRODUCTION.kind == Reproduction
  {
  }

  lemma ReproducesAlone(env: Env)
    requires Ordinary(env)
    ensures Apply(env, UNSET, Reproduce(Some([REPRODUCTION]))).Ok?
  {
    hide *;
    UnsetIsConstructible(env);
    ScopeMoves(env, REPRODUCTION);
    HashNotEmpty(env, UNSET);
    var was := TargetOf(env, UNSET);
    ReproductionStamped(env, was);
    var alone := [REPRODUCTION];
    UnsetEvidence(alone);
    assert alone[0] == REPRODUCTION;
    StampAllNames(env, alone, was, was);
    ReproduceUnfolds(env, UNSET, Some(alone));
  }

  lemma ReproductionStamped(env: Env, was: string)
    requires Ordinary(env) && was != ""
    ensures NeedsStamp(env, REPRODUCTION, was) && !NeedsStamp(env, SCOPE, was)
    ensures forall t :: !Names(env, REPRODUCTION, t) && !Names(env, SCOPE, t)
    ensures StampAll(env, [REPRODUCTION], was).Ok? && StampAll(env, [REPRODUCTION, SCOPE], was).Ok?
  {
    assert [REPRODUCTION, SCOPE][1..] == [SCOPE] && [SCOPE][1..] == [] && [REPRODUCTION][1..] == [];
  }

  // ----- evidence that takes verification away --------------------------------------------------------------------------

  /** A response signed for `UNSET`, of the execution "e". */
  function RunResponse(env: Env): Item {
    var plain := PLAIN_RESPONSE.(metadata := map["observed_target" := Str(TargetOf(env, UNSET)), "finding_id" := Str("1"),
                                                 "execution_id" := Str("e")]);
    var signature := Sign(env, plain, "o");
    plain.(metadata := plain.metadata["observation_signature" := Str(signature)]["server_observation_id" := Str("o")],
           stamp := Some(Stamp("o", signature)))
  }

  const RUN_REPRODUCTION: Item :=
    Item(Reproduction, "s", "s", "", None, map["outcome" := Str("reproduced"), "execution_id" := Str("e")], 0, "r", None)

  lemma RunResponseIsMade(env: Env)
    requires Ordinary(env)
    ensures IsTrusted(env, RunResponse(env))
  {
    var plain := PLAIN_RESPONSE.(metadata := map["observed_target" := Str(TargetOf(env, UNSET)), "finding_id" := Str("1"),
                                                 "execution_id" := Str("e")]);
    hide BodyOf, TargetOf, Distinguishing;
    MadeIsConstructed(env, plain, "o", Sign(env, plain, "o"));
    assert MakeObservation(env, plain, "o", Sign(env, plain, "o")) == Ok(RunResponse(env));
    ConstructedIsTrusted(env, RunResponse(env));
  }

  lemma RunResponseMeta(env: Env)
    ensures var response := RunResponse(env);
            && Meta(response, "observed_target") == TargetOf(env, UNSET) && Meta(response, "finding_id") == "1"
            && Meta(response, "finding_key") == "" && Meta(response, "project_id") == ""
            && Meta(response, "contradicts") == "" && Meta(response, "reached") == "" && response.kind == HttpResponse
            && Meta(response, "execution_id") == "e"
  {
    hide Sign, TargetOf;
  }

  lemma RunIsReproduced(env: Env)
    requires Ordinary(env)
    ensures PositiveReproduction(env, RUN_REPRODUCTION) && Meta(RUN_REPRODUCTION, "execution_id") == "e"
  {
    hide Distinguishing, Signs;
  }

  /** Alone the response verifies: it is trusted, bound and contradicts nothing. */
  lemma RunResponseVerifies(env: Env)
    requires Ordinary(env)
    ensures Verifies(env, [RunResponse(env)], RunResponse(env), BindingOf(env, UNSET))
  {
    hide *;
    RunResponseIsMade(env);
    RunResponseMeta(env);
    RunResponseReads(env);
    VerifyingKinds();
    NotItsOwnRun(env, RunResponse(env));
    VerifiesAs(env, RunResponse(env), BindingOf(env, UNSET));
  }

  lemma VerifyingKinds()
    ensures HttpResponse in VERIFYING
  {
  }

  lemma VerifiesAs(env: Env, item: Item, b: Binding)
    requires !Contradicts(env, item) && IsTrusted(env, item) && item.kind in VERIFYING && BoundTo(item, b)
    requires !ReproducedIn(env, [item], item)
    ensures Verifies(env, [item], item, b)
  {
  }

  lemma RunResponseReads(env: Env)
    requires Ordinary(env)
    ensures !Contradicts(env, RunResponse(env)) && BoundTo(RunResponse(env), BindingOf(env, UNSET))
    ensures RunResponse(env).kind != Reproduction
  {
    RunResponseMeta(env);
    HashNotEmpty(env, UNSET);
    BindingsAre(env, []);
    assert env.lower("") == "";
    hide RunResponse, TargetOf, Ordinary, BindingOf, Meta;
  }

  /** A record whose execution is reproduced stops verifying. */
  lemma RunLost(env: Env, item: Item, reproduction: Item, b: Binding)
    requires Verifies(env, [item], item, b) && PositiveReproduction(env, reproduction)
    requires Meta(item, "execution_id") != "" && Meta(reproduction, "execution_id") == Meta(item, "execution_id")
    ensures HasVerifying(env, [item], b) && !HasVerifying(env, [item] + [reproduction], b)
  {
    assert reproduction.kind == Reproduction;
    assert SameRun(env, reproduction, item);
    hide PositiveReproduction, SameRun, IsTrusted, BoundTo, Contradicts, Meta;
    var items, extra := [item], [reproduction];
    assert items[0] == item && extra[0] == reproduction;
    VerificationLost(env, items, extra, b);
  }

  /** Adding a reproduction of the execution whose response verified takes the verification away. */
  lemma VerificationCanBeLost(env: Env)
    requires Ordinary(env)
    ensures var b := BindingOf(env, UNSET);
            HasVerifying(env, [RunResponse(env)], b) && !HasVerifying(env, [RunResponse(env)] + [RUN_REPRODUCTION], b)
  {
    hide *;
    RunResponseVerifies(env);
    RunResponseMeta(env);
    RunIsReproduced(env);
    RunLost(env, RunResponse(env), RUN_REPRODUCTION, BindingOf(env, UNSET));
  }

  lemma NotItsOwnRun(env: Env, item: Item)
    requires item.kind != Reproduction
    ensures !ReproducedIn(env, [item], item)
  {
  }
}
