/**
  The span-staging coordinator `FileSpanExporter`. Each `export(spans)` call
  builds one envelope for the batch, appends it as a line to `{trace_id}.jsonl`,
  overwrites `tracer.json` with it, appends it to the array in `{trace_id}.json`
  (creating that file on the first export of a trace id), and on such a first
  export uploads the snapshot path held in the one-slot cursor `syncFile`, then
  points the cursor at the new trace's snapshot.

  The filesystem is modelled by three fields of the exporter, keyed by trace id;
  `get_unique_key` is an uninterpreted function supplied at construction; the
  upload bridge is described, call by call, by an `UploadEnv`.
 */
module SpanExporter {
  import opened Wrappers
  import Seqs

  type TraceId = string

  /** A JSON value as produced by `json.loads` (numbers restricted to integers). */
  datatype Json =
    | Null
    | Bool(b: bool)
    | Num(n: int)
    | Str(s: string)
    | Arr(items: seq<Json>)
    | Obj(fields: map<string, Json>)

  /** A JSON object, as a Python `dict`. */
  type Dict = map<string, Json>

  /** The two staging files of a trace, in the exporter's temporary directory. */
  datatype Path = JsonlPath(trace: TraceId) | JsonPath(trace: TraceId)

  /** The exceptions that escape `export`. */
  datatype ExportError =
    | IndexError          // `traces_list[0]` on an empty batch
    | TraceIdError        // the first span has no `context.trace_id` string (KeyError / TypeError)
    | MetadataNotDict     // `self.metadata` is None (TypeError)
    | PipelineNotDict     // `self.pipeline` is None (TypeError)
    | MissingToken        // ValueError: RAGAAI_CATALYST_TOKEN is not set
    | UploadTimeoutUnset  // AttributeError: the timeout handler reads `upload_timeout`, never set

  /** What `check_and_upload_files` does on one call. */
  datatype ClientResult = Returned(truthy: bool) | RaisedTimeout | Raised(message: string)

  /** The environment of one upload: whether the token is set and non-empty, and the client's behaviour. */
  datatype UploadEnv = UploadEnv(tokenSet: bool, client: ClientResult)

  /**
    `_upload_traces`, as run to completion by `_run_async`: the token is checked
    before the client is called; a client result is classified by truthiness; any
    exception other than a timeout becomes an "Upload failed" message. The timeout
    handler itself raises, since it reads an attribute the exporter never sets.
   */
  function UploadTraces(env: UploadEnv): (r: Result<string, ExportError>)
    ensures !env.tokenSet ==> r == Failure(MissingToken)
    ensures r.Failure? <==> !env.tokenSet || env.client.RaisedTimeout?
    ensures env.tokenSet && env.client.Returned? ==>
              r == Success(if env.client.truthy then "Files uploaded successfully" else "No files to upload")
    ensures env.tokenSet && env.client.RaisedTimeout? ==> r == Failure(UploadTimeoutUnset)
    ensures env.tokenSet && env.client.Raised? ==> r == Success("Upload failed: " + env.client.message)
  {
    if !env.tokenSet then Failure(MissingToken)
    else
      match env.client
      case Returned(truthy) =>
        Success(if truthy then "Files uploaded successfully" else "No files to upload")
      case RaisedTimeout => Failure(UploadTimeoutUnset)
      case Raised(message) => Success("Upload failed: " + message)
  }

  /** `d[field] = get_unique_key(d)`: the key is computed from the dict before it is stamped. */
  function Stamp(d: Dict, field: string, key: Dict -> string): (r: Dict)
    ensures r.Keys == d.Keys + {field}
    ensures r[field] == Str(key(d))
    ensures forall k :: k in d && k != field ==> r[k] == d[k]
  {
    d[field := Str(key(d))]
  }

  /** Every span document stamped with its `prompt_id`, in input order. */
  function TagAll(key: Dict -> string, docs: seq<Dict>): (tagged: seq<Dict>)
    ensures |tagged| == |docs|
  {
    seq(|docs|, i requires 0 <= i < |docs| => Stamp(docs[i], "prompt_id", key))
  }

  /** `traces_list[0]["context"]["trace_id"]`, when it exists and is a string. */
  function TraceIdOf(doc: Dict): (r: Option<TraceId>)
    ensures r.Some? <==> "context" in doc && doc["context"].Obj? && "trace_id" in doc["context"].fields
                         && doc["context"].fields["trace_id"].Str?
    ensures r.Some? ==> doc["context"].fields["trace_id"] == Str(r.value)
  {
    if "context" in doc && doc["context"].Obj? && "trace_id" in doc["context"].fields
       && doc["context"].fields["trace_id"].Str?
    then Some(doc["context"].fields["trace_id"].s)
    else None
  }

  /** The trace id a batch is staged under, if it has one. */
  function BatchTrace(spans: seq<Dict>): Option<TraceId> {
    if |spans| == 0 then None else TraceIdOf(spans[0])
  }

  function ProjectJson(projectName: Option<string>): Json {
    match projectName
    case None => Null
    case Some(name) => Str(name)
  }

  const EnvelopeKeys: set<string> :=
    {"project_name", "trace_id", "session_id", "traces", "metadata", "pipeline"}

  /** The `export_data` dictionary written by one export. */
  function EnvelopeOf(projectName: Option<string>, traceId: TraceId, sessionId: string,
                      traces: seq<Dict>, metadata: Dict, pipeline: Dict): (e: Json)
    ensures e.Obj? && e.fields.Keys == EnvelopeKeys && EnvelopeTrace(e) == Some(traceId)
    ensures e.fields["project_name"] == ProjectJson(projectName) && e.fields["session_id"] == Str(sessionId)
    ensures e.fields["traces"].Arr? && |e.fields["traces"].items| == |traces|
    ensures forall i :: 0 <= i < |traces| ==> e.fields["traces"].items[i] == Obj(traces[i])
    ensures e.fields["metadata"] == Obj(metadata) && e.fields["pipeline"] == Obj(pipeline)
  {
    Obj(map[
      "project_name" := ProjectJson(projectName),
      "trace_id" := Str(traceId),
      "session_id" := Str(sessionId),
      "traces" := Arr(seq(|traces|, i requires 0 <= i < |traces| => Obj(traces[i]))),
      "metadata" := Obj(metadata),
      "pipeline" := Obj(pipeline)])
  }

  /** The trace id an envelope was written for. */
  function EnvelopeTrace(e: Json): Option<TraceId> {
    if e.Obj? && "trace_id" in e.fields && e.fields["trace_id"].Str?
    then Some(e.fields["trace_id"].s) else None
  }

  /** The exporter's fixed configuration. */
  datatype Config = Config(projectName: Option<string>, sessionId: string, key: Dict -> string)

  /**
    Everything an export may change: the exporter's fields, the staged files
    (`jsonl` and `snap` by trace id, `tracerJson` for `tracer.json`) and the log
    of paths handed to the upload bridge.
   */
  datatype ExporterState = ExporterState(
    metadata: Option<Dict>,
    pipeline: Option<Dict>,
    syncFile: Option<Path>,
    filename: Option<Path>,
    jsonl: map<TraceId, seq<Json>>,
    snap: map<TraceId, seq<Json>>,
    tracerJson: Option<Json>,
    uploads: seq<Path>)

  /** The state after one export, the envelope it staged (if it got that far), and what it raised. */
  datatype Step = Step(state: ExporterState, staged: Option<Json>, raised: Option<ExportError>)

  /** The contents of a staging file, empty when it does not exist. */
  function Lookup(files: map<TraceId, seq<Json>>, t: TraceId): seq<Json> {
    if t in files then files[t] else []
  }

  /**
    One `export(spans)` call, step by step as the source performs it. An export
    that stages no envelope raised; one that stages it leaves it in `tracer.json`.
   */
  function ExportStep(cfg: Config, s: ExporterState, spans: seq<Dict>, env: UploadEnv): (r: Step)
    ensures r.staged.None? ==> r.raised.Some?
    ensures r.staged.Some? ==> r.state.tracerJson == r.staged
  {
    if |spans| == 0 then Step(s, None, Some(IndexError))
    else
      match TraceIdOf(spans[0])
      case None => Step(s, None, Some(TraceIdError))
      case Some(t) => Stage(cfg, s.(filename := Some(JsonlPath(t))), t, spans, env)
  }

  /** The part of an export after `self.filename` is set: stamping the two dicts, then the writes. */
  function Stage(cfg: Config, s: ExporterState, t: TraceId, spans: seq<Dict>, env: UploadEnv): Step {
    if s.metadata.None? then Step(s, None, Some(MetadataNotDict))
    else
      var md := Stamp(s.metadata.value, "id", cfg.key);
      if s.pipeline.None? then Step(s.(metadata := Some(md)), None, Some(PipelineNotDict))
      else
        var pl := Stamp(s.pipeline.value, "id", cfg.key);
        var e := EnvelopeOf(cfg.projectName, t, cfg.sessionId, TagAll(cfg.key, spans), md, pl);
        Publish(s.(metadata := Some(md), pipeline := Some(pl)), t, e, env)
  }

  /**
    The file writes of an export once its envelope `e` for trace `t` is built:
    the `.jsonl` line, `tracer.json`, then the snapshot (and, on a new trace, the
    upload of the previous one).
   */
  function Publish(s: ExporterState, t: TraceId, e: Json, env: UploadEnv): Step {
    var s3 := s.(jsonl := s.jsonl[t := Lookup(s.jsonl, t) + [e]], tracerJson := Some(e));
    Snapshot(s3, t, e, env)
  }

  /** Appending to `{t}.json`, or creating it and moving the upload cursor. */
  function Snapshot(s: ExporterState, t: TraceId, e: Json, env: UploadEnv): Step {
    if t in s.snap then
      Step(s.(snap := s.snap[t := s.snap[t] + [e]]), Some(e), None)
    else
      var s4 := s.(snap := s.snap[t := [e]]);
      match s4.syncFile
      case None => Step(s4.(syncFile := Some(JsonPath(t))), Some(e), None)
      case Some(previous) =>
        var s5 := s4.(uploads := s4.uploads + [previous]);
        match UploadTraces(env)
        case Failure(err) => Step(s5, Some(e), Some(err))
        case Success(_) => Step(s5.(syncFile := Some(JsonPath(t))), Some(e), None)
  }

  class FileSpanExporter {
    const projectName: Option<string>
    const sessionId: string
    const getUniqueKey: Dict -> string
    var metadata: Option<Dict>
    var pipeline: Option<Dict>
    var syncFile: Option<Path>
    var filename: Option<Path>
    var jsonl: map<TraceId, seq<Json>>
    var snap: map<TraceId, seq<Json>>
    var tracerJson: Option<Json>
    ghost var uploads: seq<Path>

    function Cfg(): Config {
      Config(projectName, sessionId, getUniqueKey)
    }

    ghost function State(): ExporterState
      reads this
    {
      ExporterState(metadata, pipeline, syncFile, filename, jsonl, snap, tracerJson, uploads)
    }

    /**
      `__init__`: the session id is the one supplied, or else a freshly generated
      one (passed in here); the cursor starts unset. The staging files are those
      found on disk.
     */
    constructor (projectName: Option<string>, sessionId: Option<string>, generatedSessionId: string,
                 metadata: Option<Dict>, pipeline: Option<Dict>, getUniqueKey: Dict -> string,
                 jsonl: map<TraceId, seq<Json>>, snap: map<TraceId, seq<Json>>, tracerJson: Option<Json>)
      ensures this.projectName == projectName && this.getUniqueKey == getUniqueKey
      ensures this.sessionId == if sessionId.Some? then sessionId.value else generatedSessionId
      ensures State() == ExporterState(metadata, pipeline, None, None, jsonl, snap, tracerJson, [])
    {
      this.projectName := projectName;
      this.sessionId := if sessionId.Some? then sessionId.value else generatedSessionId;
      this.getUniqueKey := getUniqueKey;
      this.metadata := metadata;
      this.pipeline := pipeline;
      this.syncFile := None;
      this.filename := None;
      this.jsonl := jsonl;
      this.snap := snap;
      this.tracerJson := tracerJson;
      this.uploads := [];
    }

    /** The loop of `export` that stamps every span document with its `prompt_id`. */
    method TagSpans(docs: seq<Dict>) returns (tagged: seq<Dict>)
      ensures |tagged| == |docs|
      ensures forall i :: 0 <= i < |docs| ==> tagged[i] == Stamp(docs[i], "prompt_id", getUniqueKey)
    {
      tagged := [];
      var i := 0;
      while i < |docs|
        invariant 0 <= i <= |docs| && |tagged| == i
        invariant forall j :: 0 <= j < i ==> tagged[j] == Stamp(docs[j], "prompt_id", getUniqueKey)
      {
        tagged := tagged + [Stamp(docs[i], "prompt_id", getUniqueKey)];
        i := i + 1;
      }
    }

    /** `export(spans)`; the result is the exception it raises, if any. */
    method Export(spans: seq<Dict>, env: UploadEnv) returns (raised: Option<ExportError>)
      modifies this
      ensures var step := ExportStep(Cfg(), old(State()), spans, env);
              State() == step.state && raised == step.raised
    {
      if |spans| == 0 {
        return Some(IndexError);
      }
      var traceId := TraceIdOf(spans[0]);
      if traceId.None? {
        return Some(TraceIdError);
      }
      var t := traceId.value;
      filename := Some(JsonlPath(t));
      if metadata.None? {
        return Some(MetadataNotDict);
      }
      metadata := Some(Stamp(metadata.value, "id", getUniqueKey));
      if pipeline.None? {
        return Some(PipelineNotDict);
      }
      pipeline := Some(Stamp(pipeline.value, "id", getUniqueKey));
      var traces := TagSpans(spans);
      assert traces == TagAll(getUniqueKey, spans);
      var e := EnvelopeOf(projectName, t, sessionId, traces, metadata.value, pipeline.value);
      assert ExportStep(Cfg(), old(State()), spans, env) == Publish(State(), t, e, env);
      raised := PublishEnvelope(t, e, env);
    }

    /** The writes of `export` after the envelope is built, proved against `Publish`. */
    method PublishEnvelope(t: TraceId, e: Json, env: UploadEnv) returns (raised: Option<ExportError>)
      modifies this
      ensures var step := Publish(old(State()), t, e, env);
              State() == step.state && raised == step.raised
    {
      jsonl := jsonl[t := Lookup(jsonl, t) + [e]];
      tracerJson := Some(e);
      if t in snap {
        snap := snap[t := snap[t] + [e]];
      } else {
        snap := snap[t := [e]];
        if syncFile.Some? {
          uploads := uploads + [syncFile.value];
          var outcome := UploadTraces(env);
          if outcome.Failure? {
            return Some(outcome.error);
          }
        }
        syncFile := Some(JsonPath(t));
      }
      return None;
    }
  }


  // ---------------------------------------------------------------------------
  // Properties of one export
  // ---------------------------------------------------------------------------

  /** Both configuration dicts are present, so an export with a trace id reaches the writes. */
  predicate Ready(s: ExporterState) {
    s.metadata.Some? && s.pipeline.Some?
  }

  /** `e` is the envelope of batch `spans` of trace `t` under configuration `cfg`. */
  predicate IsEnvelope(e: Json, cfg: Config, t: TraceId, spans: seq<Dict>) {
    && e.Obj? && e.fields.Keys == EnvelopeKeys
    && e.fields["project_name"] == ProjectJson(cfg.projectName)
    && e.fields["trace_id"] == Str(t)
    && e.fields["session_id"] == Str(cfg.sessionId)
    && e.fields["traces"].Arr? && |e.fields["traces"].items| == |spans|
    && (forall i :: 0 <= i < |spans| ==>
          e.fields["traces"].items[i] == Obj(Stamp(spans[i], "prompt_id", cfg.key)))
    && e.fields["metadata"].Obj? && "id" in e.fields["metadata"].fields
    && e.fields["pipeline"].Obj? && "id" in e.fields["pipeline"].fields
  }

  /** The staged envelope as a sequence of zero or one element. */
  function StagedSeq(r: Step): seq<Json> {
    if r.staged.Some? then [r.staged.value] else []
  }

  /** The exporter state once `export` has set the filename and stamped both dicts. */
  function Stamped(cfg: Config, s: ExporterState, t: TraceId): ExporterState
    requires Ready(s)
  {
    s.(filename := Some(JsonlPath(t)),
       metadata := Some(Stamp(s.metadata.value, "id", cfg.key)),
       pipeline := Some(Stamp(s.pipeline.value, "id", cfg.key)))
  }

  /** The envelope `export` builds for a batch of trace `t`. */
  function EnvelopeFor(cfg: Config, s: ExporterState, t: TraceId, spans: seq<Dict>): Json
    requires Ready(s)
  {
    EnvelopeOf(cfg.projectName, t, cfg.sessionId, TagAll(cfg.key, spans),
               Stamp(s.metadata.value, "id", cfg.key), Stamp(s.pipeline.value, "id", cfg.key))
  }

  /** The five ways an export can go, in the order the source meets them. */
  lemma StepCases(cfg: Config, s: ExporterState, spans: seq<Dict>, env: UploadEnv)
    ensures var r := ExportStep(cfg, s, spans, env);
            && (|spans| == 0 ==> r == Step(s, None, Some(IndexError)))
            && (|spans| > 0 && TraceIdOf(spans[0]).None? ==> r == Step(s, None, Some(TraceIdError)))
            && (BatchTrace(spans).Some? && s.metadata.None? ==>
                  r == Step(s.(filename := Some(JsonlPath(BatchTrace(spans).value))), None, Some(MetadataNotDict)))
            && (BatchTrace(spans).Some? && s.metadata.Some? && s.pipeline.None? ==>
                  r == Step(s.(filename := Some(JsonlPath(BatchTrace(spans).value)),
                               metadata := Some(Stamp(s.metadata.value, "id", cfg.key))),
                            None, Some(PipelineNotDict)))
            && (BatchTrace(spans).Some? && Ready(s) ==>
                  r == Publish(Stamped(cfg, s, BatchTrace(spans).value), BatchTrace(spans).value,
                               EnvelopeFor(cfg, s, BatchTrace(spans).value, spans), env))
  {
  }

  /**
    The writes once the envelope `e` of trace `t` is built: one more line in
    `{t}.jsonl`, `tracer.json` replaced, one more element in `{t}.json`; on a new
    trace, the upload of the cursor's path and the cursor moved unless the
    upload raised.
   */
  lemma PublishFacts(s: ExporterState, t: TraceId, e: Json, env: UploadEnv)
    ensures var r := Publish(s, t, e, env);
            && r.staged == Some(e)
            && r.state.metadata == s.metadata && r.state.pipeline == s.pipeline
            && r.state.filename == s.filename && r.state.tracerJson == Some(e)
            && (forall u :: Lookup(r.state.jsonl, u) == Lookup(s.jsonl, u) + (if u == t then [e] else []))
            && (forall u :: Lookup(r.state.snap, u) == Lookup(s.snap, u) + (if u == t then [e] else []))
            && r.state.snap.Keys == s.snap.Keys + {t}
    ensures var r := Publish(s, t, e, env);
            && (t in s.snap ==> r.state.syncFile == s.syncFile && r.state.uploads == s.uploads && r.raised.None?)
            && (t !in s.snap && s.syncFile.None? ==>
                  r.state.syncFile == Some(JsonPath(t)) && r.state.uploads == s.uploads && r.raised.None?)
            && (t !in s.snap && s.syncFile.Some? ==>
                  && r.state.uploads == s.uploads + [s.syncFile.value]
                  && (UploadTraces(env).Failure? ==>
                        r.raised == Some(UploadTraces(env).error) && r.state.syncFile == s.syncFile)
                  && (UploadTraces(env).Success? ==> r.raised.None? && r.state.syncFile == Some(JsonPath(t))))
  {
    var r := Publish(s, t, e, env);
    forall u ensures Lookup(r.state.snap, u) == Lookup(s.snap, u) + (if u == t then [e] else []) {
      if u == t && t !in s.snap {
        assert Lookup(s.snap, u) == [];
      }
    }
  }

  /**
    An export stages an envelope exactly when the batch has a trace id and both
    dicts are set; the envelope then carries the six fields, every span stamped
    with a `prompt_id`, the stamped metadata and pipeline the exporter keeps, and
    it is what `tracer.json` now holds.
   */
  lemma StagedEnvelope(cfg: Config, s: ExporterState, spans: seq<Dict>, env: UploadEnv)
    ensures var r := ExportStep(cfg, s, spans, env);
            r.staged.Some? <==> BatchTrace(spans).Some? && Ready(s)
    ensures var r := ExportStep(cfg, s, spans, env);
            r.staged.Some? ==>
              && IsEnvelope(r.staged.value, cfg, BatchTrace(spans).value, spans)
              && EnvelopeTrace(r.staged.value) == BatchTrace(spans)
              && r.state.tracerJson == r.staged
              && r.state.filename == Some(JsonlPath(BatchTrace(spans).value))
              && r.state.metadata == Some(Stamp(s.metadata.value, "id", cfg.key))
              && r.state.pipeline == Some(Stamp(s.pipeline.value, "id", cfg.key))
              && r.staged.value.fields["metadata"] == Obj(r.state.metadata.value)
              && r.staged.value.fields["pipeline"] == Obj(r.state.pipeline.value)
  {
    StepCases(cfg, s, spans, env);
    if BatchTrace(spans).Some? && Ready(s) {
      var t := BatchTrace(spans).value;
      var e := EnvelopeFor(cfg, s, t, spans);
      PublishFacts(Stamped(cfg, s, t), t, e, env);
      EnvelopeForShape(cfg, s, t, spans);
    }
  }

  lemma EnvelopeForShape(cfg: Config, s: ExporterState, t: TraceId, spans: seq<Dict>)
    requires Ready(s)
    ensures var e := EnvelopeFor(cfg, s, t, spans);
            && IsEnvelope(e, cfg, t, spans)
            && EnvelopeTrace(e) == Some(t)
            && e.fields["metadata"] == Obj(Stamp(s.metadata.value, "id", cfg.key))
            && e.fields["pipeline"] == Obj(Stamp(s.pipeline.value, "id", cfg.key))
  {
    var tagged := TagAll(cfg.key, spans);
    var e := EnvelopeFor(cfg, s, t, spans);
    assert e.fields["traces"] == Arr(seq(|tagged|, i requires 0 <= i < |tagged| => Obj(tagged[i])));
  }

  /**
    The errors raised before anything is written, each exactly in the
    circumstances the source raises it; such an export leaves the staged files,
    the cursor and the upload log unchanged (the filename and the metadata
    stamp may already have changed).
   */
  lemma FailureBeforeStaging(cfg: Config, s: ExporterState, spans: seq<Dict>, env: UploadEnv)
    ensures var r := ExportStep(cfg, s, spans, env);
            r.raised == Some(IndexError) <==> |spans| == 0
    ensures var r := ExportStep(cfg, s, spans, env);
            r.raised == Some(TraceIdError) <==> |spans| > 0 && TraceIdOf(spans[0]).None?
    ensures var r := ExportStep(cfg, s, spans, env);
            r.raised == Some(MetadataNotDict) <==> BatchTrace(spans).Some? && s.metadata.None?
    ensures var r := ExportStep(cfg, s, spans, env);
            r.raised == Some(PipelineNotDict) <==> BatchTrace(spans).Some? && s.metadata.Some? && s.pipeline.None?
    ensures var r := ExportStep(cfg, s, spans, env);
            BatchTrace(spans).None? ==> r.state == s && r.staged.None?
    ensures var r := ExportStep(cfg, s, spans, env);
            r.staged.None? ==>
              && r.raised.Some?
              && r.state == s.(filename := r.state.filename, metadata := r.state.metadata)
              && (s.metadata.Some? && BatchTrace(spans).Some? ==>
                    r.state.metadata == Some(Stamp(s.metadata.value, "id", cfg.key)))
  {
    StepCases(cfg, s, spans, env);
    if BatchTrace(spans).Some? && Ready(s) {
      var t := BatchTrace(spans).value;
      PublishFacts(Stamped(cfg, s, t), t, EnvelopeFor(cfg, s, t, spans), env);
    }
  }

  /** The envelopes of `es` that were written for trace `t`, in order. */
  function Matching(es: seq<Json>, t: TraceId): (r: seq<Json>)
    ensures |r| <= |es|
  {
    if |es| == 0 then []
    else (if EnvelopeTrace(es[0]) == Some(t) then [es[0]] else []) + Matching(es[1..], t)
  }

  lemma {:induction false} MatchingAppend(a: seq<Json>, b: seq<Json>, t: TraceId)
    ensures Matching(a + b, t) == Matching(a, t) + Matching(b, t)
    decreases |a|
  {
    if |a| > 0 {
      assert (a + b)[1..] == a[1..] + b;
      MatchingAppend(a[1..], b, t);
    } else {
      assert a + b == b;
    }
  }

  /** A sequence of envelopes all written for `t` is entirely kept by `Matching`. */
  lemma {:induction false} MatchingAll(es: seq<Json>, t: TraceId)
    requires forall k :: 0 <= k < |es| ==> EnvelopeTrace(es[k]) == Some(t)
    ensures Matching(es, t) == es
    decreases |es|
  {
    if |es| > 0 {
      MatchingAll(es[1..], t);
      assert es == [es[0]] + es[1..];
    }
  }

  /** Every trace's file in `m1` is its file in `m0` followed by the envelopes of `es` for that trace. */
  ghost predicate Extends(m0: map<TraceId, seq<Json>>, m1: map<TraceId, seq<Json>>, es: seq<Json>) {
    forall t {:trigger Lookup(m1, t)} :: Lookup(m1, t) == Lookup(m0, t) + Matching(es, t)
  }

  /**
    Each staging file gains exactly the envelopes written for its trace: the
    `.jsonl` file and the `.json` snapshot of every trace id end with the old
    contents followed by this export's envelope if it belongs to that trace,
    and the set of snapshot files grows by that trace alone.
   */
  lemma StepAppends(cfg: Config, s: ExporterState, spans: seq<Dict>, env: UploadEnv)
    ensures var r := ExportStep(cfg, s, spans, env);
            Extends(s.jsonl, r.state.jsonl, StagedSeq(r)) && Extends(s.snap, r.state.snap, StagedSeq(r))
    ensures var r := ExportStep(cfg, s, spans, env);
            r.state.snap.Keys == s.snap.Keys + (if r.staged.Some? then {BatchTrace(spans).value} else {})
  {
    var r := ExportStep(cfg, s, spans, env);
    StepCases(cfg, s, spans, env);
    if BatchTrace(spans).Some? && Ready(s) {
      var t0 := BatchTrace(spans).value;
      var e := EnvelopeFor(cfg, s, t0, spans);
      PublishFacts(Stamped(cfg, s, t0), t0, e, env);
      assert StagedSeq(r) == [e];
      forall t ensures Matching([e], t) == if t == t0 then [e] else [] {
        assert [e][1..] == [];
      }
    } else {
      assert StagedSeq(r) == [];
    }
  }

  /**
    The upload trigger: a batch of a trace seen before only appends; the first
    batch of a new trace uploads the path held by the cursor, if any, and moves
    the cursor to the new trace's snapshot. A missing token or the timeout
    branch raises out of the export and leaves the cursor where it was; any
    other client failure is swallowed.
   */
  lemma UploadTrigger(cfg: Config, s: ExporterState, spans: seq<Dict>, env: UploadEnv)
    requires BatchTrace(spans).Some? && Ready(s)
    ensures var r := ExportStep(cfg, s, spans, env); var t := BatchTrace(spans).value;
            t in s.snap ==> r.state.syncFile == s.syncFile && r.state.uploads == s.uploads && r.raised.None?
    ensures var r := ExportStep(cfg, s, spans, env); var t := BatchTrace(spans).value;
            t !in s.snap && s.syncFile.None? ==>
              r.state.syncFile == Some(JsonPath(t)) && r.state.uploads == s.uploads && r.raised.None?
    ensures var r := ExportStep(cfg, s, spans, env); var t := BatchTrace(spans).value;
            t !in s.snap && s.syncFile.Some? ==>
              && r.state.uploads == s.uploads + [s.syncFile.value]
              && (!env.tokenSet ==> r.raised == Some(MissingToken) && r.state.syncFile == s.syncFile)
              && (env.tokenSet && env.client.RaisedTimeout? ==>
                    r.raised == Some(UploadTimeoutUnset) && r.state.syncFile == s.syncFile)
              && (env.tokenSet && !env.client.RaisedTimeout? ==>
                    r.raised.None? && r.state.syncFile == Some(JsonPath(t)))
  {
    var t := BatchTrace(spans).value;
    StepCases(cfg, s, spans, env);
    PublishFacts(Stamped(cfg, s, t), t, EnvelopeFor(cfg, s, t, spans), env);
  }

  /** The cursor names the snapshot of a trace that has one (`{trace_id}.json` exists). */
  predicate CursorValid(s: ExporterState) {
    s.syncFile.Some? ==> s.syncFile.value.JsonPath? && s.syncFile.value.trace in s.snap
  }

  /**
    Every export keeps the cursor valid and only ever extends the upload log;
    a path it uploads is the snapshot of an earlier trace, never of the trace
    being exported.
   */
  lemma CursorStaysValid(cfg: Config, s: ExporterState, spans: seq<Dict>, env: UploadEnv)
    requires CursorValid(s)
    ensures var r := ExportStep(cfg, s, spans, env); CursorValid(r.state)
    ensures var r := ExportStep(cfg, s, spans, env);
            |s.uploads| <= |r.state.uploads| <= |s.uploads| + 1 && r.state.uploads[..|s.uploads|] == s.uploads
    ensures var r := ExportStep(cfg, s, spans, env);
            |r.state.uploads| > |s.uploads| ==>
              && s.syncFile.Some? && r.state.uploads == s.uploads + [s.syncFile.value]
              && s.syncFile.value.trace in s.snap
              && BatchTrace(spans).Some? && s.syncFile.value.trace != BatchTrace(spans).value
  {
    StepCases(cfg, s, spans, env);
    if BatchTrace(spans).Some? && Ready(s) {
      var t := BatchTrace(spans).value;
      PublishFacts(Stamped(cfg, s, t), t, EnvelopeFor(cfg, s, t, spans), env);
    }
  }

  // ---------------------------------------------------------------------------
  // Properties of a sequence of exports
  // ---------------------------------------------------------------------------

  /** One `export` call: its batch and the environment its upload (if any) meets. */
  datatype Call = Call(spans: seq<Dict>, env: UploadEnv)

  /** The state after the calls, each made whether or not the one before raised. */
  function RunState(cfg: Config, s: ExporterState, calls: seq<Call>): ExporterState
    decreases |calls|
  {
    if |calls| == 0 then s
    else RunState(cfg, ExportStep(cfg, s, calls[0].spans, calls[0].env).state, calls[1..])
  }

  /** The envelopes the calls staged, in call order. */
  function RunStaged(cfg: Config, s: ExporterState, calls: seq<Call>): seq<Json>
    decreases |calls|
  {
    if |calls| == 0 then []
    else
      var r := ExportStep(cfg, s, calls[0].spans, calls[0].env);
      StagedSeq(r) + RunStaged(cfg, r.state, calls[1..])
  }

  /**
    Over any sequence of calls, every trace's `.jsonl` file and `.json`
    snapshot end with the old contents followed by exactly the envelopes staged
    for that trace, in the order of the calls.
   */
  lemma {:induction false} RunAppendsInCallOrder(cfg: Config, s: ExporterState, calls: seq<Call>)
    ensures Extends(s.jsonl, RunState(cfg, s, calls).jsonl, RunStaged(cfg, s, calls))
    ensures Extends(s.snap, RunState(cfg, s, calls).snap, RunStaged(cfg, s, calls))
    decreases |calls|
  {
    if |calls| > 0 {
      var r := ExportStep(cfg, s, calls[0].spans, calls[0].env);
      var rest := RunStaged(cfg, r.state, calls[1..]);
      var f := RunState(cfg, r.state, calls[1..]);
      assert RunStaged(cfg, s, calls) == StagedSeq(r) + rest;
      assert RunState(cfg, s, calls) == f;
      StepAppends(cfg, s, calls[0].spans, calls[0].env);
      RunAppendsInCallOrder(cfg, r.state, calls[1..]);
      AppendsCompose(s.jsonl, r.state.jsonl, f.jsonl, StagedSeq(r), rest);
      AppendsCompose(s.snap, r.state.snap, f.snap, StagedSeq(r), rest);
    }
  }

  /** Two rounds of per-trace appends make one round of the concatenated envelopes. */
  lemma AppendsCompose(m0: map<TraceId, seq<Json>>, m1: map<TraceId, seq<Json>>, m2: map<TraceId, seq<Json>>,
                       a: seq<Json>, b: seq<Json>)
    requires Extends(m0, m1, a) && Extends(m1, m2, b)
    ensures Extends(m0, m2, a + b)
  {
    forall t ensures Lookup(m2, t) == Lookup(m0, t) + Matching(a + b, t) {
      MatchingAppend(a, b, t);
      Seqs.ConcatAssoc(Lookup(m0, t), Matching(a, t), Matching(b, t));
    }
  }

  /** `es` holds, call by call, an envelope of trace `t` for each batch of `calls`. */
  predicate EnvelopesOf(es: seq<Json>, cfg: Config, t: TraceId, calls: seq<Call>) {
    |es| == |calls|
    && forall k :: 0 <= k < |calls| ==>
         EnvelopeTrace(es[k]) == Some(t) && IsEnvelope(es[k], cfg, t, calls[k].spans)
  }

  lemma EnvelopesCons(e: Json, es: seq<Json>, cfg: Config, t: TraceId, calls: seq<Call>)
    requires |calls| > 0
    requires EnvelopeTrace(e) == Some(t) && IsEnvelope(e, cfg, t, calls[0].spans)
    requires EnvelopesOf(es, cfg, t, calls[1..])
    ensures EnvelopesOf([e] + es, cfg, t, calls)
  {
    forall k | 1 <= k < |calls|
      ensures EnvelopeTrace(([e] + es)[k]) == Some(t) && IsEnvelope(([e] + es)[k], cfg, t, calls[k].spans)
    {
      assert ([e] + es)[k] == es[k - 1];
      assert calls[k] == calls[1..][k - 1];
    }
  }

  /**
    Every call of a run on a ready exporter whose batches all carry trace `t`
    stages one envelope for `t` built from that call's batch, and the exporter
    stays ready.
   */
  lemma {:induction false} SameTraceStaged(cfg: Config, s: ExporterState, calls: seq<Call>, t: TraceId)
    requires Ready(s)
    requires forall i :: 0 <= i < |calls| ==> BatchTrace(calls[i].spans) == Some(t)
    ensures EnvelopesOf(RunStaged(cfg, s, calls), cfg, t, calls)
    ensures Ready(RunState(cfg, s, calls))
    decreases |calls|
  {
    if |calls| > 0 {
      var r := ExportStep(cfg, s, calls[0].spans, calls[0].env);
      StagedEnvelope(cfg, s, calls[0].spans, calls[0].env);
      var rest := RunStaged(cfg, r.state, calls[1..]);
      assert RunStaged(cfg, s, calls) == [r.staged.value] + rest;
      assert RunState(cfg, s, calls) == RunState(cfg, r.state, calls[1..]);
      SameTraceStaged(cfg, r.state, calls[1..], t);
      EnvelopesCons(r.staged.value, rest, cfg, t, calls);
    }
  }

  /**
    Repeated exports of one trace accumulate: both of its staging files gain one
    envelope per call, in call order, and no other trace's files change.
   */
  lemma SameTraceAccumulates(cfg: Config, s: ExporterState, calls: seq<Call>, t: TraceId)
    requires Ready(s)
    requires forall i :: 0 <= i < |calls| ==> BatchTrace(calls[i].spans) == Some(t)
    ensures var f := RunState(cfg, s, calls);
            && |Lookup(f.jsonl, t)| == |Lookup(s.jsonl, t)| + |calls|
            && Lookup(f.jsonl, t) == Lookup(s.jsonl, t) + RunStaged(cfg, s, calls)
            && Lookup(f.snap, t) == Lookup(s.snap, t) + RunStaged(cfg, s, calls)
    ensures var f := RunState(cfg, s, calls);
            forall u :: u != t ==> Lookup(f.jsonl, u) == Lookup(s.jsonl, u) && Lookup(f.snap, u) == Lookup(s.snap, u)
  {
    var es := RunStaged(cfg, s, calls);
    SameTraceStaged(cfg, s, calls, t);
    RunAppendsInCallOrder(cfg, s, calls);
    MatchingAll(es, t);
    forall u | u != t ensures Matching(es, u) == [] {
      MatchingNone(es, u, t);
    }
  }

  lemma {:induction false} MatchingNone(es: seq<Json>, u: TraceId, t: TraceId)
    requires u != t
    requires forall k :: 0 <= k < |es| ==> EnvelopeTrace(es[k]) == Some(t)
    ensures Matching(es, u) == []
    decreases |es|
  {
    if |es| > 0 {
      MatchingNone(es[1..], u, t);
    }
  }

  /**
    The trace ids of `ts` that have no snapshot yet, in order of first
    appearance: the traces whose first export creates a `.json` file.
   */
  function NewTraces(known: set<TraceId>, ts: seq<TraceId>): seq<TraceId>
    decreases |ts|
  {
    if |ts| == 0 then []
    else if ts[0] in known then NewTraces(known, ts[1..])
    else [ts[0]] + NewTraces(known + {ts[0]}, ts[1..])
  }

  function Paths(ts: seq<TraceId>): (ps: seq<Path>)
    ensures |ps| == |ts| && forall k :: 0 <= k < |ts| ==> ps[k] == JsonPath(ts[k])
  {
    seq(|ts|, i requires 0 <= i < |ts| => JsonPath(ts[i]))
  }

  function CursorSeq(c: Option<Path>): seq<Path> {
    if c.Some? then [c.value] else []
  }

  /**
    Starting from upload log `u0` and cursor `cur0`, with snapshots for `known`,
    exporting the traces `ts` ends with log `uF` and cursor `curF`: the paths
    handed over are, in order, the initial cursor and the snapshots of the new
    traces in order of first appearance, all but the last, which stays in the
    cursor.
   */
  predicate OneBehind(u0: seq<Path>, cur0: Option<Path>, known: set<TraceId>, ts: seq<TraceId>,
                      uF: seq<Path>, curF: Option<Path>)
  {
    var order := CursorSeq(cur0) + Paths(NewTraces(known, ts));
    && (|order| == 0 ==> uF == u0 && curF == None)
    && (|order| > 0 ==> uF == u0 + order[..|order| - 1] && curF == Some(order[|order| - 1]))
  }

  lemma OneBehindCons(u0: seq<Path>, cur0: Option<Path>, known: set<TraceId>, ts: seq<TraceId>,
                      u1: seq<Path>, cur1: Option<Path>, uF: seq<Path>, curF: Option<Path>)
    requires |ts| > 0
    requires ts[0] in known ==> u1 == u0 && cur1 == cur0
    requires ts[0] !in known ==> u1 == u0 + CursorSeq(cur0) && cur1 == Some(JsonPath(ts[0]))
    requires OneBehind(u1, cur1, known + {ts[0]}, ts[1..], uF, curF)
    ensures OneBehind(u0, cur0, known, ts, uF, curF)
  {
    if ts[0] in known {
      assert known + {ts[0]} == known;
      assert NewTraces(known, ts) == NewTraces(known, ts[1..]);
    } else {
      OneBehindNew(u0, cur0, known, ts, uF, curF);
    }
  }

  lemma OneBehindNew(u0: seq<Path>, cur0: Option<Path>, known: set<TraceId>, ts: seq<TraceId>,
                     uF: seq<Path>, curF: Option<Path>)
    requires |ts| > 0 && ts[0] !in known
    requires OneBehind(u0 + CursorSeq(cur0), Some(JsonPath(ts[0])), known + {ts[0]}, ts[1..], uF, curF)
    ensures OneBehind(u0, cur0, known, ts, uF, curF)
  {
    var t := ts[0];
    var rest := NewTraces(known + {t}, ts[1..]);
    var later := [JsonPath(t)] + Paths(rest);
    var front := later[..|later| - 1];
    assert CursorSeq(Some(JsonPath(t))) + Paths(rest) == later;
    assert uF == (u0 + CursorSeq(cur0)) + front;
    assert curF == Some(later[|later| - 1]);
    assert NewTraces(known, ts) == [t] + rest;
    assert Paths([t] + rest) == later;
    var order := CursorSeq(cur0) + later;
    assert order == CursorSeq(cur0) + Paths(NewTraces(known, ts));
    OrderSplit(u0, CursorSeq(cur0), later);
  }

  lemma OrderSplit(u0: seq<Path>, c: seq<Path>, later: seq<Path>)
    requires |later| > 0
    ensures var order := c + later;
            && (u0 + c) + later[..|later| - 1] == u0 + order[..|order| - 1]
            && order[|order| - 1] == later[|later| - 1]
  {
    var order := c + later;
    assert order[..|order| - 1] == c + later[..|later| - 1];
  }

  /**
    One export of a batch with a trace id, whatever its upload does: a new trace
    hands the cursor's path (if any) to the upload bridge, and the cursor moves
    to the new trace's snapshot unless that upload raised.
   */
  lemma StepMovesCursor(cfg: Config, s: ExporterState, spans: seq<Dict>, env: UploadEnv)
    requires BatchTrace(spans).Some? && Ready(s)
    ensures var r := ExportStep(cfg, s, spans, env); var t := BatchTrace(spans).value;
            && Ready(r.state)
            && r.state.snap.Keys == s.snap.Keys + {t}
            && (t in s.snap.Keys ==> r.state.uploads == s.uploads && r.state.syncFile == s.syncFile)
            && (t !in s.snap.Keys ==>
                  && r.state.uploads == s.uploads + CursorSeq(s.syncFile)
                  && r.state.syncFile ==
                       if s.syncFile.Some? && UploadTraces(env).Failure? then s.syncFile else Some(JsonPath(t)))
  {
    var t := BatchTrace(spans).value;
    StepCases(cfg, s, spans, env);
    PublishFacts(Stamped(cfg, s, t), t, EnvelopeFor(cfg, s, t, spans), env);
  }

  /**
    Uploads run one trace behind. When every batch has a trace id and every
    upload call returns, the paths handed to the upload bridge are, in order,
    the initial cursor followed by the snapshots of the new traces in order of
    first appearance — all but the last, which stays in the cursor.
   */
  lemma {:induction false} UploadsOneBehind(cfg: Config, s: ExporterState, calls: seq<Call>, ts: seq<TraceId>)
    requires Ready(s)
    requires |ts| == |calls|
    requires forall i :: 0 <= i < |calls| ==> BatchTrace(calls[i].spans) == Some(ts[i])
    requires forall i :: 0 <= i < |calls| ==> UploadTraces(calls[i].env).Success?
    ensures OneBehind(s.uploads, s.syncFile, s.snap.Keys, ts,
                      RunState(cfg, s, calls).uploads, RunState(cfg, s, calls).syncFile)
    decreases |calls|
  {
    if |calls| > 0 {
      var c := calls[0];
      var r := ExportStep(cfg, s, c.spans, c.env);
      StepMovesCursor(cfg, s, c.spans, c.env);
      var f := RunState(cfg, r.state, calls[1..]);
      assert RunState(cfg, s, calls) == f;
      assert forall i :: 0 <= i < |calls[1..]| ==> calls[1..][i] == calls[i + 1];
      UploadsOneBehind(cfg, r.state, calls[1..], ts[1..]);
      OneBehindCons(s.uploads, s.syncFile, s.snap.Keys, ts, r.state.uploads, r.state.syncFile,
                    f.uploads, f.syncFile);
    }
  }

  /**
    The scenario of a fresh exporter that sees traces A, A, B, C, with every
    upload returning: only A and B are uploaded, and C waits in the cursor.
   */
  lemma TraceSequenceAABC(cfg: Config, s: ExporterState, calls: seq<Call>, a: TraceId, b: TraceId, c: TraceId)
    requires Ready(s) && s.syncFile.None? && s.snap == map[] && s.uploads == []
    requires a != b && b != c && a != c
    requires |calls| == 4
    requires BatchTrace(calls[0].spans) == Some(a) && BatchTrace(calls[1].spans) == Some(a)
    requires BatchTrace(calls[2].spans) == Some(b) && BatchTrace(calls[3].spans) == Some(c)
    requires forall i :: 0 <= i < |calls| ==> UploadTraces(calls[i].env).Success?
    ensures RunState(cfg, s, calls).uploads == [JsonPath(a), JsonPath(b)]
    ensures RunState(cfg, s, calls).syncFile == Some(JsonPath(c))
  {
    var ts := [a, a, b, c];
    assert forall i :: 0 <= i < |calls| ==> BatchTrace(calls[i].spans) == Some(ts[i]);
    UploadsOneBehind(cfg, s, calls, ts);
    var f := RunState(cfg, s, calls);
    assert s.snap.Keys == {};
    OneBehindAABC(a, b, c, f.uploads, f.syncFile);
  }

  lemma OneBehindAABC(a: TraceId, b: TraceId, c: TraceId, uF: seq<Path>, curF: Option<Path>)
    requires a != b && b != c && a != c
    requires OneBehind([], None, {}, [a, a, b, c], uF, curF)
    ensures uF == [JsonPath(a), JsonPath(b)] && curF == Some(JsonPath(c))
  {
    var ts := [a, a, b, c];
    var none: set<TraceId> := {};
    assert ts[1..] == [a, b, c] && [a, b, c][1..] == [b, c] && [b, c][1..] == [c] && [c][1..] == [];
    assert none + {a} == {a} && {a} + {b} == {a, b};
    assert NewTraces({a, b}, [c]) == [c] + NewTraces({a, b} + {c}, []);
    assert NewTraces({a}, [b, c]) == [b] + NewTraces({a, b}, [c]);
    assert NewTraces({a}, [a, b, c]) == NewTraces({a}, [b, c]);
    assert NewTraces(none, ts) == [a] + NewTraces({a}, [a, b, c]);
    var order := CursorSeq(None) + Paths([a, b, c]);
    assert order == [JsonPath(a), JsonPath(b), JsonPath(c)];
    assert order[..|order| - 1] == [JsonPath(a), JsonPath(b)];
  }

  /**
    A raising upload loses a trace. A fresh exporter sees traces A, B and C;
    the upload at B's first batch raises (no token, or the timeout branch) and
    the one at C's returns. B's snapshot exists but B is never handed to the
    upload bridge: the cursor stayed on A, so A is handed over a second time
    when C arrives, and C waits in the cursor.
   */
  lemma RaisedUploadRepeats(cfg: Config, s: ExporterState, calls: seq<Call>, a: TraceId, b: TraceId, c: TraceId)
    requires Ready(s) && s.syncFile.None? && s.snap == map[] && s.uploads == []
    requires a != b && b != c && a != c
    requires |calls| == 3
    requires BatchTrace(calls[0].spans) == Some(a) && BatchTrace(calls[1].spans) == Some(b)
    requires BatchTrace(calls[2].spans) == Some(c)
    requires UploadTraces(calls[1].env).Failure? && UploadTraces(calls[2].env).Success?
    ensures RunState(cfg, s, calls).uploads == [JsonPath(a), JsonPath(a)]
    ensures RunState(cfg, s, calls).syncFile == Some(JsonPath(c))
    ensures b in RunState(cfg, s, calls).snap && JsonPath(b) !in RunState(cfg, s, calls).uploads
  {
    var r := ExportStep(cfg, s, calls[0].spans, calls[0].env);
    assert Ready(r.state) && r.state.snap.Keys == {a} && r.state.uploads == []
           && r.state.syncFile == Some(JsonPath(a)) by {
      StepMovesCursor(cfg, s, calls[0].spans, calls[0].env);
    }
    var rest := calls[1..];
    assert rest[0] == calls[1] && rest[1] == calls[2];
    assert b !in r.state.snap && c !in r.state.snap;
    assert RunState(cfg, s, calls) == RunState(cfg, r.state, rest);
    RaiseThenReturn(cfg, r.state, rest, b, c);
  }

  /** The last two calls of the scenario above: the upload at `b` raises, the one at `c` returns. */
  lemma RaiseThenReturn(cfg: Config, s: ExporterState, calls: seq<Call>, b: TraceId, c: TraceId)
    requires Ready(s) && s.syncFile.Some? && b !in s.snap && c !in s.snap && b != c
    requires |calls| == 2
    requires BatchTrace(calls[0].spans) == Some(b) && BatchTrace(calls[1].spans) == Some(c)
    requires UploadTraces(calls[0].env).Failure? && UploadTraces(calls[1].env).Success?
    ensures RunState(cfg, s, calls).uploads == s.uploads + [s.syncFile.value, s.syncFile.value]
    ensures RunState(cfg, s, calls).syncFile == Some(JsonPath(c))
    ensures b in RunState(cfg, s, calls).snap
  {
    var r := ExportStep(cfg, s, calls[0].spans, calls[0].env);
    assert Ready(r.state) && r.state.snap.Keys == s.snap.Keys + {b}
           && r.state.uploads == s.uploads + [s.syncFile.value] && r.state.syncFile == s.syncFile by {
      StepMovesCursor(cfg, s, calls[0].spans, calls[0].env);
    }
    assert RunState(cfg, s, calls) == RunState(cfg, r.state, calls[1..]);
    assert calls[1..][0] == calls[1];
    Returns(cfg, r.state, calls[1..], c);
    assert (s.uploads + [s.syncFile.value]) + [s.syncFile.value] == s.uploads + [s.syncFile.value, s.syncFile.value];
  }

  /** A single call whose batch starts a new trace and whose upload returns. */
  lemma Returns(cfg: Config, s: ExporterState, calls: seq<Call>, c: TraceId)
    requires Ready(s) && s.syncFile.Some? && c !in s.snap
    requires |calls| == 1 && BatchTrace(calls[0].spans) == Some(c) && UploadTraces(calls[0].env).Success?
    ensures RunState(cfg, s, calls).uploads == s.uploads + [s.syncFile.value]
    ensures RunState(cfg, s, calls).syncFile == Some(JsonPath(c))
    ensures RunState(cfg, s, calls).snap.Keys == s.snap.Keys + {c}
  {
    var r := ExportStep(cfg, s, calls[0].spans, calls[0].env);
    assert r.state.snap.Keys == s.snap.Keys + {c} && r.state.uploads == s.uploads + [s.syncFile.value]
           && r.state.syncFile == Some(JsonPath(c)) by {
      StepMovesCursor(cfg, s, calls[0].spans, calls[0].env);
    }
    assert calls[1..] == [];
    assert RunState(cfg, s, calls) == RunState(cfg, r.state, calls[1..]);
  }

  /**
    Every envelope staged over a run, whatever its trace, carries the
    exporter's one session id and project name.
   */
  lemma {:induction false} SessionIdReused(cfg: Config, s: ExporterState, calls: seq<Call>)
    ensures forall e :: e in RunStaged(cfg, s, calls) ==>
              e.Obj? && e.fields.Keys == EnvelopeKeys
              && e.fields["session_id"] == Str(cfg.sessionId)
              && e.fields["project_name"] == ProjectJson(cfg.projectName)
    decreases |calls|
  {
    if |calls| > 0 {
      var r := ExportStep(cfg, s, calls[0].spans, calls[0].env);
      StagedEnvelope(cfg, s, calls[0].spans, calls[0].env);
      SessionIdReused(cfg, r.state, calls[1..]);
    }
  }
}
