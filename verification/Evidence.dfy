/**
 `backend/app/domain/evidence.py`: evidence records, and what the policies read off them.

 Text normalisation, digests and signatures are parameters (`Env`): the results hold whatever they compute, and say
 so where they need more, such as a signature that never collides.
 */
module Evidence {
  import opened Options

  datatype Kind =
    | AiAnalysis | StaticAnalysis | SourceCode | GeneratedTest | Browser | Proxy | Scanner | ScannerPlan | ToolStatus
    | Fuzzing | ApiTest | Reproduction | Screenshot | Log | HttpRequest | HttpResponse | TestFailure | Replay
    | EconomicObservation | ProtocolObservation | RuntimeObservation

  datatype Provenance =
    | FromAi | FromStaticAnalysis | FromSource | FromExecution | FromReproduction | FromBrowser | FromHttp
    | FromScanner | FromScannerPlan | FromToolStatus | FromApiTest | FromFuzzing | FromScreenshot | FromLog
    | FromReplay | FromEconomics | FromProtocol | FromRuntime

  function ProvenanceOf(kind: Kind): Provenance {
    match kind
    case AiAnalysis => FromAi
    case StaticAnalysis => FromStaticAnalysis
    case SourceCode => FromSource
    case GeneratedTest => FromSource
    case TestFailure => FromExecution
    case Reproduction => FromReproduction
    case Browser => FromBrowser
    case Proxy => FromHttp
    case HttpRequest => FromHttp
    case HttpResponse => FromHttp
    case Scanner => FromScanner
    case ScannerPlan => FromScannerPlan
    case ToolStatus => FromToolStatus
    case Fuzzing => FromFuzzing
    case ApiTest => FromApiTest
    case Log => FromLog
    case Screenshot => FromScreenshot
    case Replay => FromReplay
    case EconomicObservation => FromEconomics
    case ProtocolObservation => FromProtocol
    case RuntimeObservation => FromRuntime
  }

  /** A metadata value: its `str()` and its truth value. */
  datatype Value = Null | Value(text: string, truthy: bool)

  function Str(text: string): Value {
    Value(text, text != "")
  }

  /** What a server observation carries beside its record. */
  datatype Stamp = Stamp(observationId: string, signature: string)

  /** `stamp` is present exactly on a `ServerObservation`. */
  datatype Item = Item(
    kind: Kind,
    source: string,
    summary: string,
    details: string,
    artifactPath: Option<string>,
    metadata: map<string, Value>,
    collectedAt: int,
    id: string,
    stamp: Option<Stamp>)

  /** The message under a signature. */
  datatype Body = Body(
    artifact: string, details: string, id: string, kind: Kind, source: string, summary: string, fields: seq<string>)

  /** The parts of a semantic target. */
  datatype Target = Target(
    project: string, path: string, vulnerabilityClass: string, flowSink: string, flowSource: string, fieldPath: string,
    scope: string, argument: string, occurrence: string, sinkId: string, callIdentity: string)

  datatype Env = Env(
    lower: string -> string,        // `lower()`
    collapse: string -> string,     // `" ".join(text.split())`
    strip: string -> string,        // `strip()`
    slashes: string -> string,      // backslashes become slashes
    trimPath: string -> string,     // `lstrip("./")`
    digest: string -> string,       // SHA-256, in hexadecimal
    mac: Body -> string,            // HMAC under the server secret
    targetHash: Target -> string)   // shortened SHA-256 of a target

  type Metadata = map<string, Value>

  function Text(metadata: Metadata, key: string): string {
    if key in metadata && metadata[key].Value? then metadata[key].text else ""
  }

  /** `_meta_text`: a missing value and `None` read as the empty text. */
  function Meta(item: Item, key: string): string {
    Text(item.metadata, key)
  }

  /** `str(metadata.get(key) or "")`. */
  function TruthyMeta(item: Item, key: string): string {
    if key in item.metadata && item.metadata[key].Value? && item.metadata[key].truthy then item.metadata[key].text else ""
  }

  /** `_norm_meta`. */
  function Norm(env: Env, metadata: Metadata, key: string): string {
    env.lower(env.collapse(Text(metadata, key)))
  }

  function Either(a: string, b: string): string {
    if a != "" then a else b
  }

  /** `evidence_contradicts`. */
  predicate Contradicts(env: Env, item: Item) {
    env.lower(Meta(item, "contradicts")) in {"1", "true", "yes"}
    || env.lower(Meta(item, "reached")) in {"0", "false", "no", "not_reached"}
  }

  /** `observation_identity`: equal for two records of the same event. */
  datatype Identity = Identity(
    kind: Kind, source: string, summary: string, digest: string, artifact: string,
    event: seq<string>, typeFields: seq<string>)

  function ObservationIdentity(env: Env, item: Item): Identity {
    Identity(item.kind, env.strip(item.source), env.collapse(item.summary), ShortDigest(env, item.details),
             env.slashes(if item.artifactPath.Some? then item.artifactPath.value else ""),
             EventFields(item.metadata), TypeIdentity(env, item.kind, item.metadata))
  }

  function ShortDigest(env: Env, text: string): string {
    var d := env.digest(text);
    if |d| <= 16 then d else d[..16]
  }

  function EventFields(m: Metadata): seq<string> {
    [Text(m, "line"), Either(Text(m, "contradicts"), Text(m, "reached")), Text(m, "execution_id"), Text(m, "outcome"),
     Text(m, "finding_id"), Text(m, "finding_key"), Text(m, "project_id")]
  }

  /** `_type_identity`. */
  function TypeIdentity(env: Env, kind: Kind, m: Metadata): seq<string> {
    if kind in {HttpRequest, HttpResponse, Proxy, ApiTest} then
      [Norm(env, m, "method"), Either(Norm(env, m, "url"), Norm(env, m, "route")),
       Either(Norm(env, m, "status"), Norm(env, m, "status_code"))]
    else if kind == Scanner then
      [Either(Norm(env, m, "check_id"), Norm(env, m, "rule_id")), Norm(env, m, "target"), Norm(env, m, "result_id")]
    else if kind == Browser then
      [Either(Norm(env, m, "route"), Norm(env, m, "url")), Norm(env, m, "event"), Norm(env, m, "session_id")]
    else if kind == Fuzzing then
      [Norm(env, m, "target"), Norm(env, m, "result_id")]
    else if kind == Reproduction then
      [Norm(env, m, "result_id"), Norm(env, m, "reproduced"), Norm(env, m, "observed_target")]
    else if kind in {StaticAnalysis, SourceCode} then
      [Either(Norm(env, m, "rule"), Norm(env, m, "sink")), Norm(env, m, "field_path"),
       Norm(env, m, "sink_occurrence"), Norm(env, m, "scope_id"), Norm(env, m, "argument_index")]
    else []
  }
}
