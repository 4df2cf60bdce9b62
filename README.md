# RagaAI Catalyst: span staging and prompt templates, in Dafny

This project models two parts of the RagaAI Catalyst Python client and proves
properties about them.

**The span-staging coordinator `FileSpanExporter`** (`span_exporter.dfy`, module
`SpanExporter`). Each `export(spans)` call does the following:

- It builds one envelope: the project, the trace id, the session id, every span
  tagged with a `prompt_id`, and the `metadata`/`pipeline` dicts tagged with an `id`.
- It appends the envelope as a line of `{trace_id}.jsonl`.
- It overwrites `tracer.json` with it.
- It appends it to the array in `{trace_id}.json`, or creates that file.
- On a trace's first snapshot, it uploads the path held by the one-slot cursor
  `sync_file` and then points the cursor at the new snapshot.

The exporter is a class. It has the source's fields and an abstract filesystem
(`jsonl`, `snap`, `tracerJson`, keyed by trace id). A ghost log `uploads` records
every path handed to the upload bridge. `Export` is proved equal to the
specification function `ExportStep`, and the properties are proved about that
function, for one call and for any sequence of calls (`RunState`, `RunStaged`).

**The prompt template engine `PromptObject`** (`prompt_template.dfy`, module
`PromptTemplate`, over the Python string operations in `pystr.dfy`, module `PyStr`):

- `_extract_variables` splits on `{{`.
- `get_variables` scans for `\{\{(.*?)\}\}`. The scan is modelled directly as a
  function (`Close`, `FindAll`).
- `compile` validates the keyword arguments (missing names before extra ones),
  then replaces each exact `{{key}}` in argument order. A keyword named `self`
  never reaches the body: Python's argument binding rejects it with a `TypeError`,
  which the model reports as `SelfKeyword`.

`Split`, `Strip` and `ReplaceAll` follow Python's `str.split`, `str.strip` and
`str.replace`. `Split` and `ReplaceAll` are proved against `Join` (`sep.join`).
`Strip` is characterised by its own contract: the substring left after the
stripped characters are removed from both ends.

Two upload failures escape `export`, and the model keeps both as written:

- A missing `RAGAAI_CATALYST_TOKEN` makes `_upload_traces` raise `ValueError`
  (file_span_exporter.py:144-147). `_run_async` re-raises it from `future.result()`
  (:116-121), so it escapes `export`. This happens after the new snapshot is
  written and before `sync_file` moves (:110-112).
- The docstring of `_upload_traces` (:133) says a timeout returns
  "Upload timed out after … seconds". The `asyncio.TimeoutError` handler (:159-160)
  formats `self.upload_timeout`, which the class never sets. So the handler raises
  `AttributeError` instead, modelled as `UploadTimeoutUnset`, and that escapes
  `export` too. No bounded wait is modelled, because the code calls the client
  without one.

Either way the cursor stays on the previous trace, and a trace is lost. Suppose a
fresh exporter sees traces A, B and C, and the upload made at B's first batch
raises. Then B's snapshot exists but B is never uploaded. A is handed to the
upload bridge a second time when C arrives, and C waits in the cursor
(`RaisedUploadRepeats`).

Other behaviour of the code that the model keeps:

- `self.filename` is assigned before the dicts are stamped.
- A `None` pipeline fails only after `metadata` has already been stamped.
- `compile` validates against `get_variables()`, not against the `variables`
  computed at construction. The two disagree on `{{ name }}`: discovery strips the
  inner spaces, extraction keeps them, and `compile` never replaces such a placeholder.

## Model

| member | source | states |
|---|---|---|
| SpanExporter.UploadTraces | ragaai_catalyst/tracers/exporters/file_span_exporter.py:143-162 | A missing token fails with `MissingToken` before the client is used. The timeout branch fails. A truthy or falsy client result gives "Files uploaded successfully" or "No files to upload". Any other client exception gives "Upload failed: " followed by its message. The result is a failure exactly when the token is missing or the client timed out. |
| SpanExporter.Stamp | ragaai_catalyst/tracers/exporters/file_span_exporter.py:68-69 | The stamped dict has the old keys plus the field. The field holds the unique key computed from the unstamped dict. Every other entry is unchanged. |
| SpanExporter.TraceIdOf | ragaai_catalyst/tracers/exporters/file_span_exporter.py:63 | A trace id exists exactly when the document has a `context` object holding a string `trace_id`, and it is that string. |
| SpanExporter.EnvelopeOf | ragaai_catalyst/tracers/exporters/file_span_exporter.py:75-82 | The envelope has exactly the six keys. Its trace id reads back with `EnvelopeTrace`. It carries the project name, the session id, one entry per span in order, and the two dicts. |
| SpanExporter.ExportStep | ragaai_catalyst/tracers/exporters/file_span_exporter.py:52-112 | An export that stages no envelope raised. One that stages an envelope leaves it in `tracer.json`. |
| SpanExporter.FileSpanExporter.constructor | ragaai_catalyst/tracers/exporters/file_span_exporter.py:40-44 | The session id is the one supplied, or else the generated one. The cursor and filename start unset. The store and the dicts are as given, and the upload log is empty. |
| SpanExporter.FileSpanExporter.TagSpans | ragaai_catalyst/tracers/exporters/file_span_exporter.py:72-73 | One document per span, in input order. Each is the span stamped with its `prompt_id`. |
| SpanExporter.FileSpanExporter.Export | ragaai_catalyst/tracers/exporters/file_span_exporter.py:52-112 | The new state of every field and the raised exception are exactly those of `ExportStep` on the old state. |
| SpanExporter.FileSpanExporter.PublishEnvelope | ragaai_catalyst/tracers/exporters/file_span_exporter.py:84-112 | Once the envelope is built, the new state and the raised exception are exactly those of `Publish`. |
| SpanExporter.PublishFacts | ragaai_catalyst/tracers/exporters/file_span_exporter.py:84-112 | The writes add one line to the trace's `.jsonl` and one element to its `.json`, and leave other traces' files alone. `tracer.json` becomes the envelope. An existing snapshot means no upload and no cursor move. A new snapshot uploads the cursor's path, if set, and moves the cursor unless the upload raised. |
| SpanExporter.StagedEnvelope | ragaai_catalyst/tracers/exporters/file_span_exporter.py:62-93 | An envelope is staged exactly when the batch has a trace id and both dicts are set. It then has the envelope shape. It carries the stamped dicts the exporter keeps, `tracer.json` holds it, and `filename` names the trace's `.jsonl`. |
| SpanExporter.EnvelopeForShape | ragaai_catalyst/tracers/exporters/file_span_exporter.py:72-82 | The envelope has exactly the six keys and the given trace, session and project. `traces` has one entry per span, in order, each stamped with `prompt_id`. `metadata` and `pipeline` carry `id`. |
| SpanExporter.FailureBeforeStaging | ragaai_catalyst/tracers/exporters/file_span_exporter.py:62-69 | `IndexError` happens exactly on an empty batch, and `TraceIdError` exactly when there is no trace id; neither changes anything. Missing metadata and missing pipeline raise in that order. A failure before staging leaves the files, cursor and upload log unchanged; only `filename` and the metadata stamp may have changed. |
| SpanExporter.StepAppends | ragaai_catalyst/tracers/exporters/file_span_exporter.py:84-108 | Every trace's `.jsonl` and `.json` gain exactly this call's envelope if it belongs to that trace, at the end, and nothing otherwise. The set of snapshots grows by this trace alone. |
| SpanExporter.UploadTrigger | ragaai_catalyst/tracers/exporters/file_span_exporter.py:97-112 | For a known trace there is no upload and no cursor move. For a new trace with no cursor, the cursor is set and nothing is uploaded. For a new trace with a cursor, the cursor's path is uploaded, and then: a missing token raises `MissingToken`, a timeout raises, and both leave the cursor where it was; any other outcome returns normally with the cursor on the new trace. |
| SpanExporter.CursorStaysValid | ragaai_catalyst/tracers/exporters/file_span_exporter.py:104-112 | The cursor always names an existing snapshot. The upload log only grows, by at most one path per call, and an uploaded path is never the trace being exported. |
| SpanExporter.RunAppendsInCallOrder | ragaai_catalyst/tracers/exporters/file_span_exporter.py:84-108 | Over any sequence of calls, each trace's `.jsonl` and `.json` are the old contents followed by exactly that trace's staged envelopes, in call order. |
| SpanExporter.SameTraceStaged | ragaai_catalyst/tracers/exporters/file_span_exporter.py:62-87 | N calls for one trace on a ready exporter stage N envelopes of that trace, each built from its call's batch. |
| SpanExporter.SameTraceAccumulates | ragaai_catalyst/tracers/exporters/file_span_exporter.py:84-108 | N calls for one trace leave its `.jsonl` and `.json` with N more envelopes in call order. Every other trace's files are unchanged. |
| SpanExporter.StepMovesCursor | ragaai_catalyst/tracers/exporters/file_span_exporter.py:104-112 | Whatever the upload does, a new trace hands the cursor's path (if any) to the upload bridge. The cursor then moves to the new snapshot unless that upload raised. |
| SpanExporter.UploadsOneBehind | ragaai_catalyst/tracers/exporters/file_span_exporter.py:104-112 | When every upload returns, the uploaded paths are, in order, the initial cursor followed by the snapshots of the new traces in order of first appearance. The last of these is held in the cursor and is not uploaded. |
| SpanExporter.TraceSequenceAABC | ragaai_catalyst/tracers/exporters/file_span_exporter.py:104-112 | From a fresh exporter, traces A, A, B, C upload A's then B's snapshot, and C's stays in the cursor. |
| SpanExporter.RaisedUploadRepeats | ragaai_catalyst/tracers/exporters/file_span_exporter.py:104-112 | From a fresh exporter, traces A, B and C, with the upload at B raising and the one at C returning, upload A's snapshot twice. B's snapshot exists but is never uploaded, and C's stays in the cursor. |
| SpanExporter.SessionIdReused | ragaai_catalyst/tracers/exporters/file_span_exporter.py:41-82 | Every envelope of a run has the six keys and carries the exporter's one session id and project name. |
| PyStr.Split | ragaai_catalyst/prompt_manager.py:289 | `str.split` gives at least one piece, and the first piece is a prefix of the text. |
| PyStr.SplitJoin | ragaai_catalyst/prompt_manager.py:289 | Joining the pieces with the separator gives back the text. |
| PyStr.SplitPiecesFree | ragaai_catalyst/prompt_manager.py:289 | No piece contains the separator. |
| PyStr.SplitFirstCut | ragaai_catalyst/prompt_manager.py:289 | When there is a cut, the first one is at the leftmost occurrence: the separator follows the first piece, and no occurrence starts inside it. |
| PyStr.SplitRest | ragaai_catalyst/prompt_manager.py:289 | After the first cut, the remaining pieces are the split of the text behind that occurrence. With the first-cut lemma, every cut is at the leftmost occurrence after the previous one. |
| PyStr.SplitSingleIff | ragaai_catalyst/prompt_manager.py:289 | The split has one piece exactly when the separator does not occur. |
| PyStr.Strip | ragaai_catalyst/prompt_manager.py:289 | `str.strip(chars)` is the substring after the leading run of stripped characters, followed only by stripped characters, and neither starts nor ends with one. |
| PyStr.StripWithin | ragaai_catalyst/prompt_manager.py:329 | Every character of a stripped string comes from the original. |
| PyStr.ReplaceAll | ragaai_catalyst/prompt_manager.py:317 | Replacing a pattern by itself gives back the text. |
| PyStr.ReplaceAllIsJoinSplit | ragaai_catalyst/prompt_manager.py:317 | `s.replace(p, r)` equals `r.join(s.split(p))`. |
| PyStr.ReplaceAllAbsent | ragaai_catalyst/prompt_manager.py:317 | Replacing a pattern that does not occur leaves the text unchanged. |
| PromptTemplate.Close | ragaai_catalyst/prompt_manager.py:327-328 | After `{{`, the lazy group closes at the first `}}` before any newline. If there is none, no later `}}` can close a valid group. |
| PromptTemplate.FindAll | ragaai_catalyst/prompt_manager.py:327-328 | Every match is text the lazy group can capture: no newline, and no `}}` inside. |
| PromptTemplate.FindAllEmptyIff | ragaai_catalyst/prompt_manager.py:327-328 | For any text, the scan finds nothing exactly when no position starts a match, that is, a `{{` followed by an inner text that a `}}` closes. |
| PromptTemplate.FindAllFirst | ragaai_catalyst/prompt_manager.py:327-328 | For any text, including literal braces: if position `i` is the leftmost that starts a match, the first match is the shortest closable inner text after that `{{`. The scan then resumes right behind its `}}`. |
| PromptTemplate.FindAllRender | ragaai_catalyst/prompt_manager.py:327-329 | For a well-formed template, scanning finds exactly the placeholders' inner texts, in order. Well-formed means no literal contains `{`, and no inner text contains a newline or `}}` or ends with `}`. Without that restriction the claim fails: a literal `{` before the hole `a` renders as `{{{a}}`, which scans to `{a`. `get_variables` then gives the quote-free, stripped versions of the inner texts. |
| PromptTemplate.Qualifying | ragaai_catalyst/prompt_manager.py:329 | Kept names contain no `"`, have no outer whitespace, keep the absence of newlines, and are no more than the matches. |
| PromptTemplate.QualifyingMembers | ragaai_catalyst/prompt_manager.py:329 | A name is kept exactly when it is the whitespace-stripped form of a match with no `"`. |
| PromptTemplate.QualifyingAppend | ragaai_catalyst/prompt_manager.py:329 | Filtering keeps match order: the names of two runs of matches are those of the first run followed by those of the second. |
| PromptTemplate.GetVariables | ragaai_catalyst/prompt_manager.py:327-329 | Every discovered name is free of `"` and newlines and has no outer whitespace. |
| PromptTemplate.GetVariablesMembers | ragaai_catalyst/prompt_manager.py:327-329 | A name is discovered exactly when it is the whitespace-stripped form of a scanned match with no `"`. |
| PromptTemplate.ExtractVariables | ragaai_catalyst/prompt_manager.py:289 | There is one entry per piece after the first of `split('{{')`. Entry i is piece i + 1 with braces stripped from both ends, so no entry starts or ends with a brace. |
| PromptTemplate.ExtractVariablesEmptyIff | ragaai_catalyst/prompt_manager.py:289 | Extraction is empty exactly when the text has no `{{`. |
| PromptTemplate.PromptObject.constructor | ragaai_catalyst/prompt_manager.py:272-280 | The object keeps the text and the variables extracted from it. |
| PromptTemplate.PromptObject.Compile | ragaai_catalyst/prompt_manager.py:291-318 | A keyword named `self` fails with `SelfKeyword`: it clashes with the method's own `self` parameter, so Python raises a `TypeError` before the body runs. Otherwise, any discovered name without a key gives `MissingVariables` with exactly those names. Otherwise, extra keys give `ExtraVariables` with exactly those keys. Success happens exactly when `self` is not a key and the key set equals the discovered set, and the result is the replacements applied in argument order. With no variables and no arguments, the text is returned unchanged. |
| PromptTemplate.ApplyReplacements | ragaai_catalyst/prompt_manager.py:315-317 | With no arguments, or when every value is its own key's placeholder, the replacements leave the text unchanged. |
| PromptTemplate.ApplyReplacementsAppend | ragaai_catalyst/prompt_manager.py:315-317 | Replacements act one after another: applying a concatenated list applies the first part, then the second. |
| PromptTemplate.ReplacementStepIsJoinSplit | ragaai_catalyst/prompt_manager.py:317 | One step replaces the exact `{{key}}` as `value.join(text.split('{{key}}'))`. |
| PromptTemplate.SpacedPlaceholderDiscovered | ragaai_catalyst/prompt_manager.py:327-329 | `get_variables` reports `{{ name }}` as `name`, with the spaces stripped. |
| PromptTemplate.SpacedPlaceholderExtracted | ragaai_catalyst/prompt_manager.py:289 | `_extract_variables` reports `{{ name }}` as ` name `, with the spaces kept. |
| PromptTemplate.SpacedPlaceholderUnreplaced | ragaai_catalyst/prompt_manager.py:316-317 | Compiling `{{ name }}` with key `name` leaves the text unchanged. |
| PromptTemplate.SpacedPlaceholderStaysUnreplaced | ragaai_catalyst/prompt_manager.py:304-317 | `{{ name }}` with key `name` passes validation, yet stays unreplaced. |
| PromptTemplate.ExactPlaceholderDiscovered | ragaai_catalyst/prompt_manager.py:327-329 | `get_variables` reports the exact `{{name}}` as `name`. |
| PromptTemplate.ExactPlaceholderExtracted | ragaai_catalyst/prompt_manager.py:289 | `_extract_variables` also reports the exact `{{name}}` as `name`. |
| PromptTemplate.ExactPlaceholderCompiled | ragaai_catalyst/prompt_manager.py:304-317 | The exact `{{name}}` with key `name` passes the key-set validation and its replacement yields the value. For any name other than `self`, `compile` therefore returns the value. |

## Left out

- SpanExporter.UploadTraces: the `aiohttp.ClientSession`, the fresh event loop and the thread pool of `_run_async` are not modelled. The upload is a synchronous call whose outcome is a parameter (`UploadEnv`), and its exceptions reach the caller as `future.result()` makes them. The message of the timeout branch's `AttributeError` is not modelled.
- SpanExporter.FileSpanExporter.Export: filesystem errors, the byte format of `span.to_json`, `json.dumps` and `json.dump`, the temporary-directory and working-directory paths, `uuid4` and logging are not modelled. Files are abstract sequences of envelope values keyed by trace id, and the generated session id is a constructor parameter.
- SpanExporter.FileSpanExporter.Export: the dicts are held as values, so the in-place mutation of the caller's `metadata` and `pipeline` dicts (aliasing) is not captured. The two fields are modelled as independent values. When the caller passes one dict as both, the source's second stamp sees the first one's `id` and overwrites it, so both envelope dicts carry the second key. The model does not capture that case: it stamps each field from its own unstamped value.
- SpanExporter.FileSpanExporter.Export: JSON numbers are integers only. Floating-point values in span documents are not modelled.
- SpanExporter.Stamp: `get_unique_key` from the utilities module is not part of this model. It is an uninterpreted function supplied at construction.
- SpanExporter.FileSpanExporter.constructor: files already on disk from earlier runs are given as the initial store rather than read. Races between processes on `tracer.json` or the temporary directory are not modelled.
- `shutdown` does nothing and is not modelled. `raga_client` is only reached through the upload outcome.
- PromptTemplate.PromptObject.Compile: keyword values are taken already converted by `str(value)`. The text of the `ValueError` messages, including the unspecified order of the joined names, is not modelled. Arguments are a sequence of pairs; Python's guarantee that keys are unique is not required by the model.
- PromptTemplate.GetVariables: only the specific pattern `\{\{(.*?)\}\}` is modelled, as a direct scan. There is no general regular-expression engine.
- The HTTP classes `PromptManager` and `Prompt` (project, prompt and version listing and fetching) are network glue and not part of this model.
