/**
 `backend/app/domain/trusted_evidence.py`: observations signed by the server, their storage and their restoration.
 */
module TrustedEvidence {
  import opened Options
  import opened Evidence

  const SIGNED_META: seq<string> := [
    "argument_index", "check_id", "contradicts", "event", "execution_id", "field_path", "finding_id", "finding_key",
    "line", "method", "observed_target", "outcome", "project_id", "reached", "reproduced", "result_id", "route",
    "rule", "rule_id", "scope_id", "session_id", "sink", "sink_occurrence", "status", "status_code", "target", "url"]

  const DROPPED: set<string> := {
    "attribution", "execution_id", "finding_id", "finding_key", "observation_signature", "observed_target",
    "project_id", "server_observation_id"}

  const MARKERS: set<string> := {"attribution", "observation_signature", "server_observation_id"}

  /** `NotComparable` is the TypeError of a comparison of texts outside ASCII; the others are ValueErrors. */
  datatype TrustError = Unbound | Forged | Malformed | NotComparable

  predicate Ascii(t: string) {
    forall k :: 0 <= k < |t| ==> t[k] as int < 128
  }

  /** The signed part of a record: every field in its canonical form. */
  function BodyOf(env: Env, item: Item, observationId: string): Body {
    Body(env.slashes(if item.artifactPath.Some? then item.artifactPath.value else ""), env.digest(item.details),
         observationId, item.kind, env.strip(item.source), env.collapse(item.summary),
         seq(|SIGNED_META|, k requires 0 <= k < |SIGNED_META| => Canon(env, item, SIGNED_META[k])))
  }

  /** `_canon`. */
  function Canon(env: Env, item: Item, key: string): string {
    if key in item.metadata && item.metadata[key].Value? then env.collapse(item.metadata[key].text) else ""
  }

  /** `_sign`. */
  function Sign(env: Env, item: Item, observationId: string): string {
    env.mac(BodyOf(env, item, observationId))
  }

  /** What the base class checks of every record. */
  predicate WellFormed(env: Env, item: Item) {
    env.strip(item.summary) != "" && env.strip(item.source) != ""
  }

  /** `is_trusted_observation`. */
  predicate IsTrusted(env: Env, item: Item) {
    && item.stamp.Some?
    && item.stamp.value.observationId != ""
    && var actual := TruthyMeta(item, "observation_signature");
       && actual != "" && item.stamp.value.signature == actual
       && Sign(env, item, item.stamp.value.observationId) == actual
  }

  /** Construction of a `ServerObservation` from the fields of a record. */
  function MakeObservation(env: Env, item: Item, observationId: string, signature: string): (r: Result<Item, TrustError>)
  {
    if !WellFormed(env, item) || observationId == "" then Err(Malformed)
    else
      var expected := Sign(env, item, observationId);
      var actual := if signature != "" then signature else TruthyMeta(item, "observation_signature");
      if |actual| != |expected| then Err(Forged)
      else if !Ascii(actual) || !Ascii(expected) then Err(NotComparable)
      else if actual != expected then Err(Forged)
      else Ok(item.(metadata := item.metadata["observation_signature" := Str(expected)]
                                             ["server_observation_id" := Str(observationId)],
                    stamp := Some(Stamp(observationId, expected))))
  }

  function Without(metadata: map<string, Value>, keys: set<string>): map<string, Value> {
    map k | k in metadata && k !in keys :: metadata[k]
  }

  /** The metadata an issued observation is signed with. */
  function IssuedMetadata(item: Item, executionId: string, observedTarget: string, findingId: string, findingKey: string,
    projectId: string, observationId: string): Metadata
  {
    Without(item.metadata, DROPPED)
      ["attribution" := Str("server")]
      ["execution_id" := Str(executionId)]
      ["observed_target" := Str(observedTarget)]
      ["finding_id" := Str(findingId)]
      ["finding_key" := Str(findingKey)]
      ["project_id" := Str(projectId)]
      ["server_observation_id" := Str(observationId)]
  }

  /** `issue_server_observation`; `observationId` and `objectId` are the identifiers the server draws. */
  function Issue(env: Env, item: Item, executionId: string, observedTarget: string, findingId: string,
    findingKey: string, projectId: string, observationId: string, objectId: string): (r: Result<Item, TrustError>)
  {
    if env.strip(executionId) == "" || env.strip(observedTarget) == "" || env.strip(findingId) == "" then Err(Unbound)
    else
      var metadata := IssuedMetadata(item, executionId, observedTarget, findingId, findingKey, projectId, observationId);
      var unsigned := item.(metadata := metadata, id := objectId, stamp := None);
      var signature := Sign(env, unsigned, observationId);
      var signed := unsigned.(metadata := metadata["observation_signature" := Str(signature)]);
      MakeObservation(env, signed, observationId, signature)
  }

  /** `_without_trust_markers` of a plain record. */
  function WithoutMarkers(item: Item): Item {
    var dropped := if item.kind in {StaticAnalysis, SourceCode, Reproduction} then MARKERS
                   else MARKERS + {"observed_target"};
    item.(metadata := Without(item.metadata, dropped))
  }

  /** `restore_server_observation`; a rebuilt observation is a new object with identifier `objectId`. */
  function Restore(env: Env, item: Item, objectId: string): (r: Result<Item, TrustError>)
    requires item.stamp.Some? ==> IsTrusted(env, item)
  {
    var observationId := TruthyMeta(item, "server_observation_id");
    var signature := TruthyMeta(item, "observation_signature");
    if observationId == "" || signature == "" then Ok(WithoutMarkers(item))
    else
      var made := MakeObservation(env, item, observationId, signature);
      if made == Err(NotComparable) then Err(NotComparable)
      else if made.Err? || !IsTrusted(env, made.value) then Ok(WithoutMarkers(item))
      else Ok(made.value.(id := objectId))
  }

  /** What the database keeps of an observation: an ordinary record with the same metadata. */
  function Stored(item: Item): Item {
    item.(stamp := None)
  }

  /** Neither the MAC nor the digest maps two arguments to one value. */
  ghost predicate Collisionless(env: Env) {
    && (forall a, b :: env.mac(a) == env.mac(b) ==> a == b)
    && (forall a, b :: env.digest(a) == env.digest(b) ==> a == b)
  }

  /** A signature is a text of hexadecimal digits, and not empty. */
  ghost predicate Signs(env: Env) {
    forall b :: env.mac(b) != "" && Ascii(env.mac(b))
  }

  // ----- signatures -----------------------------------------------------------------------------------------

  lemma MarkersAreNotSigned(k: nat)
    requires k < |SIGNED_META|
    ensures SIGNED_META[k] !in MARKERS
  {
  }

  /** The two fields that hold the signature are not under it, and neither are the stamp and the object's identity. */
  lemma SignatureNotSigned(env: Env, item: Item, key: string, value: Value, stamp: Option<Stamp>, id: string, observationId: string)
    requires key in MARKERS
    ensures BodyOf(env, item.(metadata := item.metadata[key := value], stamp := stamp, id := id), observationId) ==
            BodyOf(env, item, observationId)
  {
    hide SIGNED_META;
    var item' := item.(metadata := item.metadata[key := value], stamp := stamp, id := id);
    forall k | 0 <= k < |SIGNED_META| ensures Canon(env, item', SIGNED_META[k]) == Canon(env, item, SIGNED_META[k]) {
      MarkersAreNotSigned(k);
    }
  }

  /** The form every server observation has after construction. */
  predicate Constructed(env: Env, item: Item) {
    && WellFormed(env, item)
    && item.stamp.Some?
    && item.stamp.value.observationId != ""
    && "observation_signature" in item.metadata
    && item.metadata["observation_signature"] == Str(item.stamp.value.signature)
    && "server_observation_id" in item.metadata
    && item.metadata["server_observation_id"] == Str(item.stamp.value.observationId)
    && Sign(env, item, item.stamp.value.observationId) == item.stamp.value.signature
  }

  lemma MadeIsConstructed(env: Env, item: Item, observationId: string, signature: string)
    ensures var r := MakeObservation(env, item, observationId, signature);
            r.Ok? ==> Constructed(env, r.value) && BodyOf(env, r.value, observationId) == BodyOf(env, item, observationId)
  {
    hide BodyOf, MARKERS;
    MarkerNames();
    var expected := Sign(env, item, observationId);
    var once := item.(metadata := item.metadata["observation_signature" := Str(expected)], stamp := item.stamp, id := item.id);
    SignatureNotSigned(env, item, "observation_signature", Str(expected), item.stamp, item.id, observationId);
    SignatureNotSigned(env, once, "server_observation_id", Str(observationId),
                       Some(Stamp(observationId, expected)), item.id, observationId);
  }

  lemma MarkerNames()
    ensures "observation_signature" in MARKERS && "server_observation_id" in MARKERS
  {
  }

  /** Every constructed server observation is trusted: trust cannot be lost without being rebuilt. */
  lemma ConstructedIsTrusted(env: Env, item: Item)
    requires Signs(env) && Constructed(env, item)
    ensures IsTrusted(env, item)
  {
    hide BodyOf;
  }

  // ----- issuing, storing, restoring ---------------------------------------------------------------------------

  /** Issuing succeeds exactly on bound, well-formed input, and binds the observation to its arguments. */
  lemma IssueBinds(env: Env, item: Item, executionId: string, observedTarget: string, findingId: string,
    findingKey: string, projectId: string, observationId: string, objectId: string)
    requires Signs(env)
    ensures var r := Issue(env, item, executionId, observedTarget, findingId, findingKey, projectId, observationId, objectId);
            && (r.Ok? <==>
                  && env.strip(executionId) != "" && env.strip(observedTarget) != "" && env.strip(findingId) != ""
                  && env.strip(item.summary) != "" && env.strip(item.source) != "" && observationId != "")
            && (r.Ok? ==>
                  && Constructed(env, r.value) && IsTrusted(env, r.value)
                  && r.value.kind == item.kind && r.value.source == item.source && r.value.summary == item.summary
                  && r.value.details == item.details && r.value.artifactPath == item.artifactPath
                  && Meta(r.value, "execution_id") == executionId && Meta(r.value, "observed_target") == observedTarget
                  && Meta(r.value, "finding_id") == findingId && Meta(r.value, "finding_key") == findingKey
                  && Meta(r.value, "project_id") == projectId
                  && forall k :: k in item.metadata && k !in {
                       "attribution", "execution_id", "finding_id", "finding_key", "observation_signature",
                       "observed_target", "project_id", "server_observation_id"} ==>
                       k in r.value.metadata && r.value.metadata[k] == item.metadata[k])
  {
    var metadata := IssuedMetadata(item, executionId, observedTarget, findingId, findingKey, projectId, observationId);
    var unsigned := item.(metadata := metadata, id := objectId, stamp := None);
    var signature := Sign(env, unsigned, observationId);
    IssuedReads(item, executionId, observedTarget, findingId, findingKey, projectId, observationId, signature);
    MarkerNames();
    hide BodyOf, MARKERS, IssuedMetadata, DROPPED;
    var r := Issue(env, item, executionId, observedTarget, findingId, findingKey, projectId, observationId, objectId);
    if env.strip(executionId) != "" && env.strip(observedTarget) != "" && env.strip(findingId) != "" {
      SignatureNotSigned(env, unsigned, "observation_signature", Str(signature), None, objectId, observationId);
      MadeIsConstructed(env, unsigned.(metadata := metadata["observation_signature" := Str(signature)]), observationId, signature);
      if r.Ok? { ConstructedIsTrusted(env, r.value); }
    }
  }

  /** Signing adds nothing that is read under another name. */
  lemma IssuedReads(item: Item, executionId: string, observedTarget: string, findingId: string, findingKey: string,
    projectId: string, observationId: string, signature: string)
    ensures var metadata := IssuedMetadata(item, executionId, observedTarget, findingId, findingKey, projectId, observationId);
            var signed := metadata["observation_signature" := Str(signature)]
                                  ["observation_signature" := Str(signature)]["server_observation_id" := Str(observationId)];
            && Text(signed, "execution_id") == executionId && Text(signed, "observed_target") == observedTarget
            && Text(signed, "finding_id") == findingId && Text(signed, "finding_key") == findingKey
            && Text(signed, "project_id") == projectId
            && forall k :: k in item.metadata && k !in {
                 "attribution", "execution_id", "finding_id", "finding_key", "observation_signature",
                 "observed_target", "project_id", "server_observation_id"} ==>
                 k in signed && signed[k] == item.metadata[k]
  {
  }

  /** The record names an identifier, and a signature as long as the right one that is not ASCII. */
  predicate Raises(env: Env, item: Item) {
    var observationId := TruthyMeta(item, "server_observation_id");
    var signature := TruthyMeta(item, "observation_signature");
    observationId != "" && !Ascii(signature) && |signature| == |Sign(env, item, observationId)|
  }

  /**
   A plain record is restored exactly when its signature matches its signed fields; restoring raises exactly when the two
   are equally long and the signature is not ASCII.
   */
  lemma RestoreIffSigned(env: Env, item: Item, objectId: string)
    requires Signs(env) && item.stamp.None? && WellFormed(env, item)
    ensures var observationId := TruthyMeta(item, "server_observation_id");
            var signature := TruthyMeta(item, "observation_signature");
            var r := Restore(env, item, objectId);
            && (r.Err? <==> Raises(env, item))
            && (r.Err? ==> r == Err(NotComparable))
            && (r.Ok? ==>
                  if observationId != "" && Sign(env, item, observationId) == signature
                  then r.value.stamp == Some(Stamp(observationId, signature)) && IsTrusted(env, r.value)
                  else r.value == WithoutMarkers(item) && !IsTrusted(env, r.value))
  {
    hide BodyOf, Without;
    var observationId := TruthyMeta(item, "server_observation_id");
    var signature := TruthyMeta(item, "observation_signature");
    var made := MakeObservation(env, item, observationId, signature);
    MadeIsConstructed(env, item, observationId, signature);
    if made.Ok? {
      ConstructedIsTrusted(env, made.value);
      NewObject(env, made.value, objectId);
    }
  }

  /** A text of `n` characters, none of them ASCII. */
  function NotAscii(n: nat): (t: string)
    ensures |t| == n && (n > 0 ==> !Ascii(t))
  {
    var t := seq(n, _ => '\U{E9}');
    assert n > 0 ==> t[0] as int >= 128;
    t
  }

  /** Every well-formed plain record is turned into one that cannot be restored by a signature outside ASCII. */
  lemma RestoreCanRaise(env: Env, item: Item, observationId: string, objectId: string)
    requires Signs(env) && item.stamp.None? && WellFormed(env, item) && observationId != ""
    ensures var n := |Sign(env, item, observationId)|;
            var forged := item.(metadata := item.metadata["server_observation_id" := Str(observationId)]
                                                         ["observation_signature" := Str(NotAscii(n))]);
            Restore(env, forged, objectId) == Err(NotComparable)
  {
    var n := |Sign(env, item, observationId)|;
    var named := item.(metadata := item.metadata["server_observation_id" := Str(observationId)]);
    var forged := named.(metadata := named.metadata["observation_signature" := Str(NotAscii(n))]);
    MarkerNames();
    SignatureNotSigned(env, item, "server_observation_id", Str(observationId), item.stamp, item.id, observationId);
    SignatureNotSigned(env, named, "observation_signature", Str(NotAscii(n)), named.stamp, named.id, observationId);
    hide BodyOf, MARKERS, NotAscii, Ascii;
    assert Sign(env, item, observationId) != "";
    assert Sign(env, forged, observationId) == Sign(env, item, observationId);
    assert Raises(env, forged);
    RestoreIffSigned(env, forged, objectId);
  }

  lemma NewObject(env: Env, item: Item, objectId: string)
    ensures IsTrusted(env, item.(id := objectId)) == IsTrusted(env, item)
  {
    if item.stamp.Some? {
      var o := item.stamp.value.observationId;
      var item' := item.(id := objectId);
      assert forall key :: Canon(env, item', key) == Canon(env, item, key);
      assert BodyOf(env, item', o) == BodyOf(env, item, o);
    }
  }

  /** Storage keeps trust: a stored observation is restored with all its fields. */
  lemma RestoreStored(env: Env, item: Item, objectId: string)
    requires Signs(env) && Constructed(env, item)
    ensures Restore(env, Stored(item), objectId) == Ok(item.(id := objectId))
    ensures IsTrusted(env, item.(id := objectId))
  {
    hide BodyOf;
    var plain := Stored(item);
    var o := item.stamp.value.observationId;
    StoredBody(env, item, o);
    assert item.stamp.value.signature != "";
    var made := MakeObservation(env, plain, o, item.stamp.value.signature);
    assert item.metadata["observation_signature" := Str(item.stamp.value.signature)]
                        ["server_observation_id" := Str(o)] == item.metadata;
    assert made == Ok(item);
    ConstructedIsTrusted(env, item);
    NewObject(env, item, objectId);
  }

  lemma StoredBody(env: Env, item: Item, observationId: string)
    ensures BodyOf(env, Stored(item), observationId) == BodyOf(env, item, observationId)
  {
    assert forall key :: Canon(env, Stored(item), key) == Canon(env, item, key);
  }

  /** Some signed field differs beyond its canonical form. */
  predicate Altered(env: Env, item: Item, original: Item) {
    || item.kind != original.kind
    || env.strip(item.source) != env.strip(original.source)
    || env.collapse(item.summary) != env.collapse(original.summary)
    || item.details != original.details
    || env.slashes(if item.artifactPath.Some? then item.artifactPath.value else "")
       != env.slashes(if original.artifactPath.Some? then original.artifactPath.value else "")
    || exists k :: 0 <= k < |SIGNED_META| && Canon(env, item, SIGNED_META[k]) != Canon(env, original, SIGNED_META[k])
  }

  lemma AlteredBody(env: Env, item: Item, original: Item, observationId: string)
    requires Collisionless(env)
    ensures Altered(env, item, original) <==> BodyOf(env, item, observationId) != BodyOf(env, original, observationId)
  {
    hide SIGNED_META, Canon;
    var a, b := BodyOf(env, item, observationId), BodyOf(env, original, observationId);
    assert |a.fields| == |b.fields| == |SIGNED_META|;
    assert forall k :: 0 <= k < |SIGNED_META| ==>
      a.fields[k] == Canon(env, item, SIGNED_META[k]) && b.fields[k] == Canon(env, original, SIGNED_META[k]);
  }

  /**
   A record that carries an observation's signature is restored as trusted if and only if it also carries its identifier
   and no signed field was altered; otherwise it comes back without any trust marker, and a runtime record without the
   target it claims to have observed, so that it neither corroborates nor verifies.
   */
  lemma AlteredRecordIsNotRestored(env: Env, original: Item, item: Item, objectId: string)
    requires Signs(env) && Collisionless(env)
    requires Constructed(env, original) && item.stamp.None? && WellFormed(env, item)
    requires TruthyMeta(item, "observation_signature") == original.stamp.value.signature
    ensures var r := Restore(env, item, objectId);
            var same := TruthyMeta(item, "server_observation_id") == original.stamp.value.observationId;
            && r.Ok?
            && (IsTrusted(env, r.value) <==> same && !Altered(env, item, original))
            && (!IsTrusted(env, r.value) ==>
                  && (forall key :: key in {"attribution", "observation_signature", "server_observation_id"} ==>
                        key !in r.value.metadata)
                  && (item.kind !in {StaticAnalysis, SourceCode, Reproduction} ==> "observed_target" !in r.value.metadata))
  {
    hide BodyOf, Altered, IsTrusted, Restore;
    var o := TruthyMeta(item, "server_observation_id");
    var signed := original.stamp.value.observationId;
    RestoreIffSigned(env, item, objectId);
    AlteredBody(env, item, original, signed);
    BodyNamesId(env, item, o);
    BodyNamesId(env, original, signed);
    assert Sign(env, item, o) == original.stamp.value.signature <==> BodyOf(env, item, o) == BodyOf(env, original, signed);
  }

  lemma BodyNamesId(env: Env, item: Item, observationId: string)
    ensures BodyOf(env, item, observationId).id == observationId
  {
  }

  /** Restoring again changes nothing but the object's own identity. */
  lemma RestoreIsIdempotent(env: Env, item: Item, a: string, b: string)
    requires Signs(env) && item.stamp.None? && WellFormed(env, item)
    ensures Restore(env, item, a).Ok? ==>
              var once := Restore(env, item, a).value;
              && (once.stamp.Some? ==> IsTrusted(env, once))
              && Restore(env, once, b) == Ok(if once.stamp.Some? then once.(id := b) else once)
  {
    hide BodyOf, Ascii;
    RestoreIffSigned(env, item, a);
    if Restore(env, item, a).Ok? {
      RestoredAgain(env, item, a, b);
    }
  }

  lemma RestoredAgain(env: Env, item: Item, a: string, b: string)
    requires Signs(env) && item.stamp.None? && WellFormed(env, item) && Restore(env, item, a).Ok?
    ensures var once := Restore(env, item, a).value;
            && (once.stamp.Some? ==> IsTrusted(env, once))
            && Restore(env, once, b) == Ok(if once.stamp.Some? then once.(id := b) else once)
  {
    hide BodyOf, Ascii;
    var once := Restore(env, item, a).value;
    var observationId := TruthyMeta(item, "server_observation_id");
    var signature := TruthyMeta(item, "observation_signature");
    RestoreIffSigned(env, item, a);
    MadeIsConstructed(env, item, observationId, signature);
    if once.stamp.Some? {
      var o := once.stamp.value.observationId;
      assert Constructed(env, once) by { NewBody(env, MakeObservation(env, item, observationId, signature).value, a, o); }
      RestoreTrusted(env, once, b);
    } else {
      assert WithoutMarkers(WithoutMarkers(item)) == WithoutMarkers(item);
      assert TruthyMeta(once, "server_observation_id") == "";
    }
  }

  lemma NewBody(env: Env, item: Item, id: string, observationId: string)
    ensures BodyOf(env, item.(id := id), observationId) == BodyOf(env, item, observationId)
  {
    assert forall key :: Canon(env, item.(id := id), key) == Canon(env, item, key);
  }

  lemma RestoreTrusted(env: Env, item: Item, objectId: string)
    requires Signs(env) && Constructed(env, item) && IsTrusted(env, item)
    ensures Restore(env, item, objectId) == Ok(item.(id := objectId))
  {
    hide BodyOf;
    var o := item.stamp.value.observationId;
    assert item.metadata["observation_signature" := Str(item.stamp.value.signature)]
                        ["server_observation_id" := Str(o)] == item.metadata;
    assert MakeObservation(env, item, o, item.stamp.value.signature) == Ok(item);
  }
}
