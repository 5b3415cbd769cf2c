/**
 AI text never counts: erasing every AI-analysis record from a finding and from everything that is ever added to it
 changes neither which transitions succeed nor any status reached.
 */
module AiErasure {
  import opened Options
  import opened Evidence
  import opened TrustedEvidence
  import opened LifecyclePolicy
  import opened Findings

  function Erase(items: seq<Item>): seq<Item> {
    if items == [] then []
    else (if items[0].kind == AiAnalysis then [] else [items[0]]) + Erase(items[1..])
  }

  function EraseFinding(f: Finding): Finding {
    f.(evidence := Erase(f.evidence))
  }

  function EraseExtra(extra: Option<seq<Item>>): Option<seq<Item>> {
    if extra.Some? then Some(Erase(extra.value)) else None
  }

  function EraseAction(a: Action): Action {
    match a
    case Verify(extra) => Verify(EraseExtra(extra))
    case Reproduce(extra) => Reproduce(EraseExtra(extra))
    case Reject(extra) => Reject(EraseExtra(extra))
    case _ => a
  }

  function EraseResult(r: Result<Finding, Refusal>): Result<Finding, Refusal> {
    if r.Ok? then Ok(EraseFinding(r.value)) else r
  }

  function EraseActions(actions: seq<Action>): seq<Action> {
    seq(|actions|, k requires 0 <= k < |actions| => EraseAction(actions[k]))
  }

  // ----- erasing and the evidence -----------------------------------------------------------------------------------

  lemma {:induction false} EraseAppend(a: seq<Item>, b: seq<Item>)
    ensures Erase(a + b) == Erase(a) + Erase(b)
  {
    if a == [] {
      assert a + b == b;
    } else {
      assert (a + b)[1..] == a[1..] + b;
      EraseAppend(a[1..], b);
    }
  }

  lemma {:induction false} EraseMember(items: seq<Item>, item: Item)
    ensures item in Erase(items) <==> item in items && item.kind != AiAnalysis
  {
    if items != [] {
      EraseMember(items[1..], item);
      assert item in items <==> item == items[0] || item in items[1..];
    }
  }

  lemma EraseExtras(f: Finding, extra: Option<seq<Item>>)
    ensures Erase(f.evidence + Extra(extra)) == Erase(f.evidence) + Extra(EraseExtra(extra))
  {
    EraseAppend(f.evidence, Extra(extra));
  }

  // ----- the policies do not see AI text --------------------------------------------------------------------------------

  lemma EraseReproduced(env: Env, items: seq<Item>, item: Item)
    ensures ReproducedIn(env, Erase(items), item) == ReproducedIn(env, items, item)
  {
    hide SameRun, Erase;
    if ReproducedIn(env, items, item) {
      var k :| 0 <= k < |items| && PositiveReproduction(env, items[k]) && SameRun(env, items[k], item);
      EraseMember(items, items[k]);
      var m :| 0 <= m < |Erase(items)| && Erase(items)[m] == items[k];
    }
    if ReproducedIn(env, Erase(items), item) {
      var k :| 0 <= k < |Erase(items)| && PositiveReproduction(env, Erase(items)[k]) && SameRun(env, Erase(items)[k], item);
      EraseMember(items, Erase(items)[k]);
      var m :| 0 <= m < |items| && items[m] == Erase(items)[k];
    }
  }

  lemma EraseVerifying(env: Env, items: seq<Item>, b: Binding)
    ensures HasVerifying(env, Erase(items), b) == HasVerifying(env, items, b)
  {
    hide Erase, ReproducedIn, BoundTo, IsTrusted, Contradicts;
    if HasVerifying(env, items, b) {
      var k :| 0 <= k < |items| && Verifies(env, items, items[k], b);
      EraseReproduced(env, items, items[k]);
      EraseMember(items, items[k]);
      var m :| 0 <= m < |Erase(items)| && Erase(items)[m] == items[k];
      assert Verifies(env, Erase(items), Erase(items)[m], b);
    }
    if HasVerifying(env, Erase(items), b) {
      var k :| 0 <= k < |Erase(items)| && Verifies(env, Erase(items), Erase(items)[k], b);
      EraseReproduced(env, items, Erase(items)[k]);
      EraseMember(items, Erase(items)[k]);
      var m :| 0 <= m < |items| && items[m] == Erase(items)[k];
      assert Verifies(env, items, items[m], b);
    }
  }

  lemma EraseHasReproduction(env: Env, items: seq<Item>, targetId: string)
    ensures HasReproduction(env, Erase(items), targetId) == HasReproduction(env, items, targetId)
  {
    hide Erase;
    if HasReproduction(env, items, targetId) {
      var k :| 0 <= k < |items| && ReproductionFor(env, items[k], targetId);
      EraseMember(items, items[k]);
      var m :| 0 <= m < |Erase(items)| && Erase(items)[m] == items[k];
    }
    if HasReproduction(env, Erase(items), targetId) {
      var k :| 0 <= k < |Erase(items)| && ReproductionFor(env, Erase(items)[k], targetId);
      EraseMember(items, Erase(items)[k]);
      var m :| 0 <= m < |items| && items[m] == Erase(items)[k];
    }
  }

  lemma EraseCorroborates(env: Env, items: seq<Item>, b: Binding)
    ensures Corroborates(env, Erase(items), b) == Corroborates(env, items, b)
  {
    if Corroborates(env, items, b) { CorroborationReaches(env, items, Erase(items), b); }
    if Corroborates(env, Erase(items), b) { CorroborationReaches(env, Erase(items), items, b); }
  }

  lemma FoundIn(items: seq<Item>, other: seq<Item>, k: nat) returns (m: nat)
    requires k < |items| && items[k].kind != AiAnalysis
    requires other == Erase(items) || items == Erase(other)
    ensures m < |other| && other[m] == items[k]
  {
    hide Erase;
    EraseMember(items, items[k]);
    EraseMember(other, items[k]);
    m :| 0 <= m < |other| && other[m] == items[k];
  }

  /** Corroboration carries over to any evidence that has the same records other than AI text. */
  lemma CorroborationReaches(env: Env, items: seq<Item>, other: seq<Item>, b: Binding)
    requires Corroborates(env, items, b)
    requires other == Erase(items) || items == Erase(other)
    ensures Corroborates(env, other, b)
  {
    hide Erase, ObservationIdentity, IsTrusted, Contradicts, BoundTo, StaticMatches;
    if exists k :: 0 <= k < |items| && Researches(env, items[k], b) {
      var k :| 0 <= k < |items| && Researches(env, items[k], b);
      var m := FoundIn(items, other, k);
      assert Researches(env, other[m], b);
    } else {
      var j, k :| 0 <= j < |items| && 0 <= k < |items| && Supports(env, items[j], b) && Supports(env, items[k], b)
        && ObservationIdentity(env, items[j]) != ObservationIdentity(env, items[k]);
      var m := FoundIn(items, other, j);
      var n := FoundIn(items, other, k);
      assert Supports(env, other[m], b) && Supports(env, other[n], b);
    }
  }

  lemma {:induction false} EraseFirstOf(env: Env, items: seq<Item>, key: string)
    ensures FirstOf(env, Erase(items), key) == FirstOf(env, items, key)
  {
    hide NormOf;
    if items != [] {
      EraseFirstOf(env, items[1..], key);
      assert items[0].kind != AiAnalysis ==> Erase(items)[1..] == Erase(items[1..]);
      assert items[0].kind == AiAnalysis ==> Erase(items) == Erase(items[1..]);
    }
  }

  lemma EraseTarget(env: Env, f: Finding)
    ensures TargetOf(env, EraseFinding(f)) == TargetOf(env, f)
    ensures BindingOf(env, EraseFinding(f)) == BindingOf(env, f)
  {
    hide FirstOf, Erase;
    EraseFirstOf(env, f.evidence, "scope_id");
    EraseFirstOf(env, f.evidence, "argument_index");
    EraseFirstOf(env, f.evidence, "sink_occurrence");
    EraseFirstOf(env, f.evidence, "sink_id");
    EraseFirstOf(env, f.evidence, "call_identity");
  }

  lemma EraseConstructible(env: Env, f: Finding)
    ensures Constructible(env, EraseFinding(f)) == Constructible(env, f)
  {
    hide TargetOf, HasReproduction, HasVerifying, Erase;
    EraseTarget(env, f);
    EraseHasReproduction(env, f.evidence, TargetOf(env, f));
    EraseVerifying(env, f.evidence, BindingOf(env, f));
  }

  lemma StampKeepsKind(env: Env, item: Item, targetId: string)
    ensures var r := StampOne(env, item, targetId);
            && (r.Ok? ==> r.value.kind == item.kind)
            && (item.kind == AiAnalysis ==> r == Ok(item))
  {
    hide Sign, WellFormed;
  }

  lemma {:induction false} EraseStamped(env: Env, items: seq<Item>, targetId: string)
    ensures var r := StampAll(env, items, targetId);
            StampAll(env, Erase(items), targetId) == if r.Ok? then Ok(Erase(r.value)) else r
  {
    hide StampOne;
    if items != [] {
      var head, tail := items[0], items[1..];
      EraseStamped(env, tail, targetId);
      StampKeepsKind(env, head, targetId);
      var r := StampAll(env, items, targetId);
      if r.Ok? {
        assert r.value[0] == StampOne(env, head, targetId).value && r.value[1..] == StampAll(env, tail, targetId).value;
      }
      if head.kind == AiAnalysis {
        assert Erase(items) == Erase(tail);
        assert r.Ok? ==> Erase(r.value) == Erase(r.value[1..]);
      } else {
        assert Erase(items) == [head] + Erase(tail) && Erase(items)[0] == head && Erase(items)[1..] == Erase(tail);
      }
    }
  }

  // ----- the transitions do not see AI text ---------------------------------------------------------------------------

  /** One transition commutes with erasing: same refusal, or the same new finding up to AI text. */
  lemma ApplyErased(env: Env, f: Finding, a: Action)
    ensures Apply(env, EraseFinding(f), EraseAction(a)) == EraseResult(Apply(env, f, a))
  {
    hide Erase, TargetOf, HasReproduction, HasVerifying, Corroborates, StampAll, Constructible, Extra, EraseExtra;
    EraseTarget(env, f);
    match a
    case Verify(extra) =>
      EraseExtras(f, extra);
      EraseVerifying(env, f.evidence + Extra(extra), BindingOf(env, f));
      EraseConstructible(env, f.(status := Verified, evidence := f.evidence + Extra(extra), tier := VerifiedTier));
    case Corroborate =>
      EraseCorroborates(env, f.evidence, BindingOf(env, f));
      EraseConstructible(env, f.(status := Corroborated, tier := CorroboratedTier));
    case Reproduce(extra) =>
      EraseExtras(f, extra);
      var target := TargetOf(env, f);
      EraseStamped(env, f.evidence + Extra(extra), target);
      var merged := StampAll(env, f.evidence + Extra(extra), target);
      if merged.Ok? {
        EraseHasReproduction(env, merged.value, target);
        EraseConstructible(env, f.(status := Reproduced, evidence := merged.value, tier := ReproducedTier));
      }
    case HumanAccept =>
      EraseHasReproduction(env, f.evidence, TargetOf(env, f));
      EraseVerifying(env, f.evidence, BindingOf(env, f));
      EraseConstructible(env, f.(status := HumanAccepted, review := Accepted, tier := VerifiedTier));
    case Reject(extra) =>
      EraseExtras(f, extra);
      EraseConstructible(env, f.(status := Rejected, evidence := f.evidence + Extra(extra)));
    case WithReview(state) =>
      EraseConstructible(env, f.(review := state));
  }

  /** Over a whole run: the findings reached differ only in AI text, so every status is the same. */
  lemma {:induction false} RunErased(env: Env, f: Finding, actions: seq<Action>)
    ensures Run(env, EraseFinding(f), EraseActions(actions)) == EraseFinding(Run(env, f, actions))
    ensures Run(env, EraseFinding(f), EraseActions(actions)).status == Run(env, f, actions).status
    decreases |actions|
  {
    hide Apply, EraseAction;
    if actions != [] {
      ApplyErased(env, f, actions[0]);
      RunErased(env, After(env, f, actions[0]), actions[1..]);
      assert EraseActions(actions)[1..] == EraseActions(actions[1..]);
    }
  }

  // ----- an AI hypothesis by itself --------------------------------------------------------------------------------------

  predicate OnlyAi(items: seq<Item>) {
    Erase(items) == []
  }

  predicate AddsOnlyAi(a: Action) {
    match a
    case Verify(extra) => OnlyAi(Extra(extra))
    case Reproduce(extra) => OnlyAi(Extra(extra))
    case Reject(extra) => OnlyAi(Extra(extra))
    case _ => true
  }

  lemma NothingSupports(env: Env, f: Finding, a: Action)
    requires f.status == Potential && f.evidence == [] && AddsOnlyAi(a)
    ensures var r := Apply(env, f, EraseAction(a));
            r.Ok? ==> r.value.status in {Potential, Rejected} && r.value.evidence == []
  {
    hide TargetOf, ReproductionFor, Verifies, Supports, Researches;
    assert forall t :: !HasReproduction(env, [], t);
    assert forall b :: !HasVerifying(env, [], b);
  }

  /** The module's invariant: from AI text alone a potential finding can only be rejected, whatever is tried. */
  lemma {:induction false} AiHypothesisNeverAdvances(env: Env, f: Finding, actions: seq<Action>)
    requires f.status == Potential && OnlyAi(f.evidence)
    requires forall k :: 0 <= k < |actions| ==> AddsOnlyAi(actions[k])
    ensures Run(env, f, actions).status in {Potential, Rejected}
    decreases |actions|
  {
    hide Apply, EraseAction, Erase, AddsOnlyAi;
    if actions != [] {
      var g := After(env, f, actions[0]);
      ApplyErased(env, f, actions[0]);
      NothingSupports(env, EraseFinding(f), actions[0]);
      if g.status == Potential {
        AiHypothesisNeverAdvances(env, g, actions[1..]);
      } else {
        RejectedStays(env, g, actions[1..]);
      }
    }
  }

  lemma RejectedApply(env: Env, f: Finding, a: Action)
    requires f.status == Rejected
    ensures After(env, f, a).status == Rejected
  {
    hide Constructible, TargetOf, HasVerifying, HasReproduction, Corroborates, StampAll;
  }

  lemma {:induction false} RejectedStays(env: Env, f: Finding, actions: seq<Action>)
    requires f.status == Rejected
    ensures Run(env, f, actions).status == Rejected
    decreases |actions|
  {
    hide After;
    if actions != [] {
      RejectedApply(env, f, actions[0]);
      RejectedStays(env, After(env, f, actions[0]), actions[1..]);
    }
  }
}
