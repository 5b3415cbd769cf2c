/**
 `backend/app/domain/lifecycle_policy.py`: which evidence reproduces, verifies or corroborates a finding.
 */
module LifecyclePolicy {
  import opened Evidence
  import opened TrustedEvidence

  const VERIFYING: set<Kind> := {HttpResponse, Browser, Scanner, ApiTest, Replay, Fuzzing, Proxy}
  const RESEARCH: set<Kind> := VERIFYING + {HttpRequest}
  const CORROBORATING: set<Kind> := {StaticAnalysis, SourceCode}

  const FAILED_OUTCOMES: set<string> := {
    "failed", "not_reproduced", "blocked", "inconclusive", "intermittent", "error", "no_evidence",
    "environment_error", "timeout"}
  const POSITIVE_OUTCOMES: set<string> := {"reproduced", "consistently_reproduced", "success", "exploited"}

  /** Which finding an observation has to name. */
  datatype Binding = Binding(targetId: string, findingId: string, findingKey: string, projectId: string)

  /** `positive_reproduction`. */
  predicate PositiveReproduction(env: Env, item: Item) {
    && item.kind == Reproduction
    && ProvenanceOf(item.kind) == FromReproduction
    && !Contradicts(env, item)
    && var outcome := env.lower(Meta(item, "outcome"));
       var reproduced := env.lower(Meta(item, "reproduced"));
       if outcome in FAILED_OUTCOMES || reproduced in {"0", "false", "no"} then false
       else if outcome in POSITIVE_OUTCOMES then true
       else reproduced in {"1", "true", "yes"} && (outcome == "" || outcome in POSITIVE_OUTCOMES)
  }

  /** `reproduction_for_target`. */
  predicate ReproductionFor(env: Env, item: Item, targetId: string) {
    targetId != "" && PositiveReproduction(env, item) && Meta(item, "observed_target") == targetId
  }

  /** `_bound_to_finding`. */
  predicate BoundTo(item: Item, b: Binding) {
    && b.targetId != "" && b.findingId != ""
    && Meta(item, "observed_target") == b.targetId
    && Meta(item, "finding_id") == b.findingId
    && Meta(item, "finding_key") == b.findingKey
    && Meta(item, "project_id") == b.projectId
  }

  /** A positive reproduction in `items` that is the same event, or the same execution. */
  predicate ReproducedIn(env: Env, items: seq<Item>, item: Item) {
    exists k :: 0 <= k < |items| && PositiveReproduction(env, items[k]) && SameRun(env, items[k], item)
  }

  predicate SameRun(env: Env, reproduction: Item, item: Item) {
    || ObservationIdentity(env, reproduction) == ObservationIdentity(env, item)
    || (Meta(item, "execution_id") != "" && Meta(reproduction, "execution_id") == Meta(item, "execution_id"))
  }

  /** `item`, one of `items`, verifies the finding. */
  predicate Verifies(env: Env, items: seq<Item>, item: Item, b: Binding) {
    && !Contradicts(env, item) && IsTrusted(env, item) && item.kind in VERIFYING && BoundTo(item, b)
    && !ReproducedIn(env, items, item)
  }

  function Independent(env: Env, items: seq<Item>, rest: seq<Item>, b: Binding): seq<Item> {
    if rest == [] then []
    else (if Verifies(env, items, rest[0], b) then [rest[0]] else []) + Independent(env, items, rest[1..], b)
  }

  /** `independent_verification_items`. */
  method IndependentVerificationItems(env: Env, items: seq<Item>, b: Binding) returns (found: seq<Item>)
    ensures found == Independent(env, items, items, b)
    ensures found != [] <==> exists k :: 0 <= k < |items| && Verifies(env, items, items[k], b)
  {
    hide PositiveReproduction, IsTrusted, Contradicts, ObservationIdentity, BoundTo, Meta, ReproducedIn, Independent;
    var reproductionIds := set k | 0 <= k < |items| && PositiveReproduction(env, items[k]) ::
      ObservationIdentity(env, items[k]);
    var reproductionExecutions := set k | 0 <= k < |items| && PositiveReproduction(env, items[k])
      && Meta(items[k], "execution_id") != "" :: Meta(items[k], "execution_id");
    found := [];
    assert items[0..] == items;
    for k := 0 to |items|
      invariant found + Independent(env, items, items[k..], b) == Independent(env, items, items, b)
    {
      var item := items[k];
      IndependentStep(env, items, k, b);
      RecordedRuns(env, items, item, reproductionIds, reproductionExecutions);
      if Contradicts(env, item) || !IsTrusted(env, item) { continue; }
      if item.kind !in VERIFYING { continue; }
      if !BoundTo(item, b) { continue; }
      if ObservationIdentity(env, item) in reproductionIds { continue; }
      var execution := Meta(item, "execution_id");
      if execution != "" && execution in reproductionExecutions { continue; }
      found := found + [item];
    }
    IndependentEnd(env, items, items[|items|..], b);
    IndependentMembers(env, items, items, b);
  }

  lemma IndependentStep(env: Env, items: seq<Item>, k: nat, b: Binding)
    requires k < |items|
    ensures Independent(env, items, items[k..], b) ==
            (if Verifies(env, items, items[k], b) then [items[k]] else []) + Independent(env, items, items[k + 1..], b)
  {
    hide Verifies;
    assert items[k..][1..] == items[k + 1..];
  }

  lemma IndependentEnd(env: Env, items: seq<Item>, rest: seq<Item>, b: Binding)
    requires rest == []
    ensures Independent(env, items, rest, b) == []
  {
  }

  lemma RecordedRuns(env: Env, items: seq<Item>, item: Item, ids: set<Identity>, executions: set<string>)
    requires ids == set k | 0 <= k < |items| && PositiveReproduction(env, items[k]) :: ObservationIdentity(env, items[k])
    requires executions == set k | 0 <= k < |items| && PositiveReproduction(env, items[k])
               && Meta(items[k], "execution_id") != "" :: Meta(items[k], "execution_id")
    ensures ReproducedIn(env, items, item) <==>
            ObservationIdentity(env, item) in ids
            || (Meta(item, "execution_id") != "" && Meta(item, "execution_id") in executions)
  {
    hide PositiveReproduction, ObservationIdentity, Meta;
  }

  lemma {:induction false} IndependentMembers(env: Env, items: seq<Item>, rest: seq<Item>, b: Binding)
    ensures Independent(env, items, rest, b) != [] <==> exists k :: 0 <= k < |rest| && Verifies(env, items, rest[k], b)
  {
    hide Verifies;
    if rest != [] {
      IndependentMembers(env, items, rest[1..], b);
      if exists k :: 0 <= k < |rest| && Verifies(env, items, rest[k], b) {
        var k :| 0 <= k < |rest| && Verifies(env, items, rest[k], b);
        assert k > 0 ==> rest[1..][k - 1] == rest[k];
      }
      if exists k :: 0 <= k < |rest[1..]| && Verifies(env, items, rest[1..][k], b) {
        var k :| 0 <= k < |rest[1..]| && Verifies(env, items, rest[1..][k], b);
        assert rest[k + 1] == rest[1..][k];
      }
    }
  }

  /** `_static_matches_target`. */
  predicate StaticMatches(item: Item, targetId: string) {
    Meta(item, "observed_target") == "" || (targetId != "" && Meta(item, "observed_target") == targetId)
  }

  /** A static or source observation that counts for the finding. */
  predicate Supports(env: Env, item: Item, b: Binding) {
    item.kind in CORROBORATING && !Contradicts(env, item) && StaticMatches(item, b.targetId)
  }

  /** A runtime observation that corroborates by itself. */
  predicate Researches(env: Env, item: Item, b: Binding) {
    item.kind in RESEARCH && !Contradicts(env, item) && IsTrusted(env, item) && BoundTo(item, b)
  }

  /** Two different static observations, or one trusted runtime observation. */
  predicate Corroborates(env: Env, items: seq<Item>, b: Binding) {
    || (exists k :: 0 <= k < |items| && Researches(env, items[k], b))
    || (exists j, k :: 0 <= j < |items| && 0 <= k < |items| && Supports(env, items[j], b) && Supports(env, items[k], b)
          && ObservationIdentity(env, items[j]) != ObservationIdentity(env, items[k]))
  }

  /** `can_corroborate`. */
  method CanCorroborate(env: Env, items: seq<Item>, b: Binding) returns (yes: bool)
    ensures yes == Corroborates(env, items, b)
  {
    hide IsTrusted, Contradicts, ObservationIdentity, BoundTo;
    var seen: set<Identity> := {};
    var research := false;
    for k := 0 to |items|
      invariant forall i :: i in seen <==>
        exists m :: 0 <= m < k && Supports(env, items[m], b) && ObservationIdentity(env, items[m]) == i
      invariant research <==> exists m :: 0 <= m < k && Researches(env, items[m], b)
    {
      var item := items[k];
      if item.kind == AiAnalysis || Contradicts(env, item) { continue; }
      if item.kind in CORROBORATING {
        if StaticMatches(item, b.targetId) { seen := seen + {ObservationIdentity(env, item)}; }
      } else if item.kind in RESEARCH && IsTrusted(env, item) && BoundTo(item, b) {
        research := true;
      }
    }
    SeenDecides(env, items, b, seen);
    yes := |seen| >= 2 || research;
  }

  lemma SeenDecides(env: Env, items: seq<Item>, b: Binding, seen: set<Identity>)
    requires forall i :: i in seen <==>
      exists m :: 0 <= m < |items| && Supports(env, items[m], b) && ObservationIdentity(env, items[m]) == i
    ensures |seen| >= 2 <==>
      exists j, k :: 0 <= j < |items| && 0 <= k < |items| && Supports(env, items[j], b) && Supports(env, items[k], b)
        && ObservationIdentity(env, items[j]) != ObservationIdentity(env, items[k])
  {
    hide Supports, ObservationIdentity;
    TwoMembers(seen);
    if |seen| >= 2 {
      var i, i' :| i in seen && i' in seen && i != i';
      var j :| 0 <= j < |items| && Supports(env, items[j], b) && ObservationIdentity(env, items[j]) == i;
      var k :| 0 <= k < |items| && Supports(env, items[k], b) && ObservationIdentity(env, items[k]) == i';
    } else {
      forall j, k | 0 <= j < |items| && 0 <= k < |items| && Supports(env, items[j], b) && Supports(env, items[k], b)
        ensures ObservationIdentity(env, items[j]) == ObservationIdentity(env, items[k])
      {
        assert ObservationIdentity(env, items[j]) in seen && ObservationIdentity(env, items[k]) in seen;
      }
    }
  }

  lemma TwoMembers<T>(s: set<T>)
    ensures |s| >= 2 <==> exists i, j :: i in s && j in s && i != j
  {
    if |s| >= 2 {
      var i :| i in s;
      assert |s - {i}| >= 1;
      var j :| j in s - {i};
    } else if exists i, j :: i in s && j in s && i != j {
      var i, j :| i in s && j in s && i != j;
      assert {i, j} <= s;
      SubsetSize({i, j}, s);
    }
  }

  lemma SubsetSize<T>(a: set<T>, b: set<T>)
    requires a <= b
    ensures |a| <= |b|
  {
    if a != {} {
      var x :| x in a;
      SubsetSize(a - {x}, b - {x});
    }
  }

  // ----- what the policies depend on ----------------------------------------------------------------------------

  /** The same record up to its object identifier and its time stamp. */
  predicate SameRecord(a: Item, b: Item) {
    a == b.(id := a.id, collectedAt := a.collectedAt)
  }

  /** Every record of `items` is among `more`, whatever the order, the number of copies and the identifiers. */
  predicate Covered(items: seq<Item>, more: seq<Item>) {
    forall k :: 0 <= k < |items| ==> exists m :: 0 <= m < |more| && SameRecord(items[k], more[m])
  }

  lemma SameMeta(env: Env, a: Item, b: Item)
    requires a.metadata == b.metadata
    ensures forall key :: Meta(a, key) == Meta(b, key)
    ensures forall key :: Canon(env, a, key) == Canon(env, b, key)
    ensures TruthyMeta(a, "observation_signature") == TruthyMeta(b, "observation_signature")
  {
  }

  lemma SameIdentity(env: Env, a: Item, b: Item)
    requires SameRecord(a, b)
    ensures ObservationIdentity(env, a) == ObservationIdentity(env, b)
  {
    hide EventFields, TypeIdentity;
  }

  lemma SameTrust(env: Env, a: Item, b: Item)
    requires SameRecord(a, b)
    ensures IsTrusted(env, a) == IsTrusted(env, b)
  {
    SameMeta(env, a, b);
    hide Canon, TruthyMeta, SIGNED_META;
    if a.stamp.Some? {
      var o := a.stamp.value.observationId;
      assert BodyOf(env, a, o).fields == BodyOf(env, b, o).fields;
    }
  }

  lemma SameRecordReads(env: Env, a: Item, b: Item)
    requires SameRecord(a, b)
    ensures forall t :: StaticMatches(a, t) == StaticMatches(b, t)
    ensures forall c :: BoundTo(a, c) == BoundTo(b, c)
    ensures Contradicts(env, a) == Contradicts(env, b) && a.kind == b.kind
  {
    SameMeta(env, a, b);
    hide Meta;
  }

  lemma SameRecordCounts(env: Env, a: Item, b: Item, c: Binding)
    requires SameRecord(a, b)
    ensures ObservationIdentity(env, a) == ObservationIdentity(env, b)
    ensures Supports(env, a, c) == Supports(env, b, c) && Researches(env, a, c) == Researches(env, b, c)
  {
    hide ObservationIdentity, IsTrusted, StaticMatches, BoundTo, Contradicts;
    SameIdentity(env, a, b);
    SameTrust(env, a, b);
    SameRecordReads(env, a, b);
  }

  /** Adding evidence never takes corroboration away. */
  lemma CorroborationIsMonotone(env: Env, items: seq<Item>, more: seq<Item>, b: Binding)
    requires Covered(items, more) && Corroborates(env, items, b)
    ensures Corroborates(env, more, b)
  {
    hide Supports, Researches, ObservationIdentity, SameRecord;
    if exists k :: 0 <= k < |items| && Researches(env, items[k], b) {
      var k :| 0 <= k < |items| && Researches(env, items[k], b);
      var m :| 0 <= m < |more| && SameRecord(items[k], more[m]);
      SameRecordCounts(env, items[k], more[m], b);
    } else {
      var j, k :| 0 <= j < |items| && 0 <= k < |items| && Supports(env, items[j], b) && Supports(env, items[k], b)
        && ObservationIdentity(env, items[j]) != ObservationIdentity(env, items[k]);
      var m :| 0 <= m < |more| && SameRecord(items[j], more[m]);
      var n :| 0 <= n < |more| && SameRecord(items[k], more[n]);
      SameRecordCounts(env, items[j], more[m], b);
      SameRecordCounts(env, items[k], more[n], b);
    }
  }

  /** Order, copies and object identifiers of the evidence do not matter to corroboration. */
  lemma CorroborationIgnoresOrderAndCopies(env: Env, items: seq<Item>, other: seq<Item>, b: Binding)
    requires Covered(items, other) && Covered(other, items)
    ensures Corroborates(env, items, b) == Corroborates(env, other, b)
  {
    hide Corroborates, Covered;
    if Corroborates(env, items, b) { CorroborationIsMonotone(env, items, other, b); }
    if Corroborates(env, other, b) { CorroborationIsMonotone(env, other, items, b); }
  }

  /** `evidence` has an item that verifies the finding. */
  predicate HasVerifying(env: Env, items: seq<Item>, b: Binding) {
    exists k :: 0 <= k < |items| && Verifies(env, items, items[k], b)
  }

  lemma ReproducedInSum(env: Env, items: seq<Item>, extra: seq<Item>, item: Item)
    ensures ReproducedIn(env, items + extra, item) <==> ReproducedIn(env, items, item) || ReproducedIn(env, extra, item)
  {
    hide PositiveReproduction, SameRun;
    var all := items + extra;
    forall k | 0 <= k < |items| ensures all[k] == items[k] { }
    forall k | 0 <= k < |extra| ensures all[|items| + k] == extra[k] { }
    if ReproducedIn(env, all, item) {
      var k :| 0 <= k < |all| && PositiveReproduction(env, all[k]) && SameRun(env, all[k], item);
      assert if k < |items| then all[k] == items[k] else all[k] == extra[k - |items|];
    }
  }

  /** Some record of `part` verifies by itself, and its run is not reproduced in `rest`. */
  predicate StillVerifies(env: Env, part: seq<Item>, rest: seq<Item>, b: Binding) {
    exists k :: 0 <= k < |part| && Verifies(env, part, part[k], b) && !ReproducedIn(env, rest, part[k])
  }

  /**
   Evidence put together verifies exactly if one of the parts has a verifying record whose run the other part does not
   reproduce.
   */
  lemma VerificationOfSum(env: Env, items: seq<Item>, extra: seq<Item>, b: Binding)
    ensures HasVerifying(env, items + extra, b) <==>
            StillVerifies(env, items, extra, b) || StillVerifies(env, extra, items, b)
  {
    hide ReproducedIn, IsTrusted, Contradicts, BoundTo;
    var all := items + extra;
    forall k | 0 <= k < |items| ensures all[k] == items[k] { }
    forall k | 0 <= k < |extra| ensures all[|items| + k] == extra[k] { }
    forall item ensures ReproducedIn(env, all, item) <==> ReproducedIn(env, items, item) || ReproducedIn(env, extra, item) {
      ReproducedInSum(env, items, extra, item);
    }
    if HasVerifying(env, all, b) {
      var k :| 0 <= k < |all| && Verifies(env, all, all[k], b);
      assert if k < |items| then all[k] == items[k] else all[k] == extra[k - |items|];
    }
  }

  /** What stands against losing verification: without positive reproductions nothing is lost. */
  lemma VerificationSurvives(env: Env, items: seq<Item>, extra: seq<Item>, b: Binding)
    requires HasVerifying(env, items, b)
    requires forall k :: 0 <= k < |extra| ==> !PositiveReproduction(env, extra[k])
    ensures HasVerifying(env, items + extra, b)
  {
    hide PositiveReproduction, SameRun, IsTrusted, Contradicts, BoundTo;
    VerificationOfSum(env, items, extra, b);
  }

  /**
   Verification, unlike corroboration, can be lost by adding evidence: exactly if the additions reproduce the run of
   every record that verified, and bring no verifying record whose run was not reproduced before.
   */
  lemma VerificationLost(env: Env, items: seq<Item>, extra: seq<Item>, b: Binding)
    requires HasVerifying(env, items, b)
    ensures !HasVerifying(env, items + extra, b) <==>
            && (forall k :: 0 <= k < |items| && Verifies(env, items, items[k], b) ==> ReproducedIn(env, extra, items[k]))
            && (forall k :: 0 <= k < |extra| && Verifies(env, extra, extra[k], b) ==> ReproducedIn(env, items, extra[k]))
  {
    hide Verifies, ReproducedIn;
    VerificationOfSum(env, items, extra, b);
  }
}
