# PDF risk-analysis upload pipeline, modelled in Dafny

This project models the request pipeline of a PDF insurance-risk analysis
service. A client posts a PDF to `POST /upload-pdf`. The route checks the
content type, uploads the file to S3 and digests its bytes with SHA-256. It
then consults a DynamoDB cache keyed by that digest. On a miss it extracts
the text with an asynchronous Textract job and stores it.

The text then goes through a fixed LangGraph analysis graph. A
currency-conversion entry node fans out to six analysis nodes, and each of
them writes its own field of the shared state. The final state passes a
six-field response schema. Exceptions become JSON error responses through
the application's exception handlers.

Every external call is a parameter of the model:

- the S3 upload, as its key or its exception;
- SHA-256, as an uninterpreted function onto 64-digit lower-case hex strings;
- the outcome of each DynamoDB call;
- the Textract job, as the sequence of its poll responses;
- the language-model chains, as fallible functions on JSON values;
- the order in which the six analysis nodes complete.

Modules, one per source component:

- `Wrappers`, `Json`, `Errors` and `GraphState`: Option/Result, JSON values
  with Python truthiness, exception kinds with `str(e)`, and the graph state
  schema.
- `CurrencyConversion` and the six analysis modules: the node functions.
- `Graph`: node and edge data, the run, the fan-out and its order
  independence.
- `Utf8` and `Db`: text encoding, digest normalisation, and the cache table
  as a class.
- `Textract`: the poll loop as a method, and line assembly.
- `Response`: the schema gate.
- `ExceptionHandlers`: the handlers.
- `Endpoint`: the route as a class method, proved against the request
  function `Serve`.

Quirks of the code are reproduced as written:

- the insurance-recommendation node discards its wrapped result;
- the table write swallows client errors;
- a `FAILED` Textract job is read like a successful one;
- an empty extraction raises `NameError` for an unbound `e`;
- the route's catch-all turns every failure into HTTP 500, so the 502 and 503
  handlers never fire for it.

## Model

| member | source | states |
|---|---|---|
| GraphState.Get | src/services/property_valudation.py:57 | `state.get(key)` is the stored value, or `None` when the key is absent |
| GraphState.Merge | src/services/graph.py:29-38 | merging a node's fragment overwrites exactly the fragment's keys and keeps every other field |
| GraphState.SchemaShape | src/services/graph.py:29-38 | the state has eight distinct fields: `input_text`, `converted_text` and six result fields |
| Json.FalsyValues | src/services/property_valudation.py:57-60 | the values the `if not cleaned_text` guard rejects are exactly `None`, `False`, `0`, `""`, `[]` and `{}`; a chat message is always accepted |
| Errors.Str | src/main.py:28-70 | `str(exc)` of an HTTP exception is its status code in decimal, a colon and its detail; a `KeyError` gives its quoted key; a `NameError` gives the standard "name '…' is not defined" sentence |
| CurrencyConversion.RunCurrencyConversion | src/services/currency_convertion.py:46-61 | a missing `input_text` raises `KeyError('input_text')`; otherwise the result is exactly `{converted_text: raw chain output}` and a chain failure propagates |
| CurrencyConversion.NoEmptinessGuard | src/services/currency_convertion.py:46-57 | the entry node reads only `input_text` and, unlike the analysis nodes, runs the chain even on an empty or `None` input |
| CurrencyConversion.ConvertedTextIsTruthy | src/services/currency_convertion.py:56-61 | the converted text is a chat message, which is always truthy |
| PropertyValuation.RunPropertyValuation | src/services/property_valudation.py:54-78 | a falsy or absent `converted_text` raises the ValueError before any chain call; otherwise success iff the chain succeeds, and the result is exactly `{property_valuations_s: result}`, unchanged; chain errors re-raise |
| RiskPercentages.RunRiskPercentage | src/services/risk_percentages.py:61-89 | the same guard and error behaviour; the result is exactly `{risk_percentage_s: wrapped}` |
| RiskPercentages.Wrap | src/services/risk_percentages.py:81-85 | a list result becomes `{"risks": list}`; any other result is kept unchanged |
| RiskPercentages.ListResultBecomesMapping | src/services/risk_percentages.py:81-82 | a list or mapping result always yields a mapping |
| BusinessInterruption.RunBusinessInterruption | src/services/business_interruption.py:77-116 | the same guard and error behaviour; the result is exactly `{business_interruption_s: result}`, unchanged |
| CurrentInsurance.RunCurrentInsurance | src/services/current_insurance.py:64-90 | the same guard and error behaviour; the result is exactly `{current_insurance_s: result}`, unchanged |
| MultiCurrencyRisk.RunMultyCurrencyRisk | src/services/multi_currency_risk.py:44-69 | the same guard and error behaviour; the result is exactly `{multi_currency_risk_s: result}`, unchanged |
| InsuranceRecommendation.RunInsuranceRecommendation | src/services/insurance_recommendation.py:51-79 | the same guard and error behaviour; the raw result is stored under `insurance_recommendation_s`, and the computed wrapping is discarded |
| InsuranceRecommendation.ListResultStaysList | src/services/insurance_recommendation.py:71-76 | a list result is stored as a list, not as a mapping |
| Graph.RunNode | src/services/graph.py:45-51 | each node returns a one-key fragment under the field it owns |
| Graph.NodesShape | src/services/graph.py:45-54 | seven nodes with distinct names; every node is registered; the entry point is `convert_currency` |
| Graph.EdgesOf | src/services/graph.py:57-69 | the entry node has no incoming edge and fans out to the six leaves; every other node has one edge in, from the entry node, and one edge out, to END |
| Graph.EntryFansOut | src/services/graph.py:54-62 | the entry point has no incoming edge, and its outgoing edges go to the six leaves in order |
| Graph.LeafEdges | src/services/graph.py:57-69 | each leaf has exactly one incoming edge, from `convert_currency`, and exactly one outgoing edge, to END; there are no leaf-to-leaf edges |
| Graph.WrittenMembers | src/services/graph.py:45-62 | a field is written by a node sequence iff some node in it owns that field |
| Graph.WritersAreDisjoint | src/services/graph.py:29-51 | distinct nodes write distinct fields; every written field is declared; no node writes `input_text`; only the entry node writes `converted_text` |
| Graph.LeavesWriteResultFields | src/services/graph.py:29-38 | the six leaves together write exactly the six result fields |
| Graph.LeafReadsOnlyConvertedText | src/services/graph.py:46-51 | a leaf's outcome depends only on `converted_text` (and its chain), and a falsy value fails it before the chain |
| Graph.FragmentOwnership | src/services/graph.py:29-51 | no fragment contains `input_text`; a fragment contains `converted_text` iff it comes from the entry node |
| Graph.FanOutOutcome | src/services/graph.py:56-69 | the fan-out succeeds iff every node succeeds on the snapshot; its keys and values are the accumulator overwritten by each node's output |
| Graph.FanOutFirstFailure | src/services/graph.py:56-69 | a failed fan-out reports the error of the first node, in completion order, that fails on the snapshot |
| Graph.ScheduleMembers | src/services/graph.py:57-62 | a completion order holds exactly the six analysis nodes |
| Graph.ScheduleOutcome | src/services/graph.py:56-69 | a successful fan-out over any completion order has every analysis node succeeding, stores each node's output under its own result field and keeps every other snapshot field |
| Graph.LeavesOccurOnce | src/services/graph.py:57-62 | each leaf occurs once in the fan-out, and the entry node not at all |
| Graph.ScheduleDistinct | src/services/graph.py:57-62 | any completion order of the leaves has no repeats and holds exactly the leaves |
| Graph.FanOutOrderIndependent | src/services/graph.py:56-69 | two completion orders give the same success and the same merged state |
| Graph.GuardsPassInRun | src/services/graph.py:54-62 | after a successful entry node the leaves' guards pass, so a leaf succeeds iff its chain does |
| Graph.RunGraphSucceeds | src/services/graph.py:40-73 | a run is all or nothing: it succeeds iff the entry node and all six leaves succeed, and an entry failure is the run's error |
| Graph.RunGraphFirstFailure | src/services/graph.py:40-73 | once the entry node succeeds, a run fails with the error of the first analysis node, in completion order, that fails |
| Graph.SnapshotFields | src/services/graph.py:54-62 | the state the analysis nodes see is the initial state with the entry node's converted text written in |
| Graph.ScheduleWritesResultFields | src/services/graph.py:56-62 | any completion order writes exactly the six result fields |
| Graph.RunGraphFinalState | src/services/graph.py:29-69 | a successful run keeps the initial keys plus `converted_text` and the six results; it stores the entry output and each leaf's output under its own field, and changes nothing else |
| Graph.RunGraphOrderIndependent | src/services/graph.py:56-69 | the outcome of a run does not depend on the leaves' completion order |
| Utf8.Encode | src/services/db.py:103-104 | `str.encode('utf-8')` takes one to four bytes per character |
| Utf8.DecodeEncode | src/services/db.py:103-104 | UTF-8 decoding inverts the encoding |
| Utf8.EncodeInjective | src/services/db.py:103-104 | distinct strings have distinct encodings |
| Utf8.AsciiEncoding | src/services/db.py:103-104 | ASCII text encodes byte for byte |
| Db.Normalize | src/services/db.py:102-108 | str is UTF-8 encoded, so decoding gives it back; bytes and bytearray pass unchanged; any other type has no byte form |
| Db.HashTextSha256 | src/services/db.py:95-113 | the digest is SHA-256 of the normalised bytes; any other type raises `TypeError` with the source's message |
| Db.StrHashesAsEncodedBytes | src/services/db.py:103-104 | the digest of a str equals the digest of its UTF-8 bytes |
| Db.ByteArrayHashesAsBytes | src/services/db.py:105-106 | a bytearray hashes like the same bytes |
| Db.DistinctTextsHashDistinctBytes | src/services/db.py:103-113 | distinct strings are hashed as distinct byte strings |
| Db.Exists | src/services/db.py:75-91 | true iff the key is present; false on a client error; any other failure escapes |
| Db.Lookup | src/services/db.py:23-54 | the stored text iff the key is present; `None` for a missing key and on a client error; any other failure escapes |
| Db.Stored | src/services/db.py:56-72 | a successful write overwrites the key and keeps all other entries; a failed write changes nothing |
| Db.PutResult | src/services/db.py:61-72 | a write returns the response; a client error is swallowed and returns `None`; any other failure escapes |
| Db.ClientErrorsCaught | src/services/db.py:43-88 | no helper lets a client error escape: it becomes `False`, `None` or `None` |
| Db.WriteThenRead | src/services/db.py:38-69 | after a successful write, the key exists and reads back exactly the written text |
| Db.WriteIsolation | src/services/db.py:61-69 | a write leaves every other key's existence and text as they were |
| Db.ParseTextTable.GetParsedText | src/services/db.py:37-54 | `get_parsed_text` on the current table is `Lookup` |
| Db.ParseTextTable.PutParsedText | src/services/db.py:61-72 | `put_parsed_text` sets the table to `Stored` and returns `PutResult` |
| Db.ParseTextTable.ItemExists | src/services/db.py:80-91 | `item_exists` on the current table is `Exists` |
| Textract.FinalPoll | src/services/textract_client.py:40-45 | the loop ends at the first poll whose status is `SUCCEEDED` or `FAILED`, or that raises |
| Textract.LaterPollsIgnored | src/services/textract_client.py:40-45 | polls after the one that settles the job are never read |
| Textract.LineTexts | src/services/textract_client.py:48 | succeeds iff every block has a type and every LINE block has a text; each line is the text of a LINE block; otherwise `KeyError` for `BlockType` or `Text` |
| Textract.LineBlocks | src/services/textract_client.py:48 | the blocks the comprehension keeps are exactly the LINE blocks |
| Textract.LineTextsAreLineBlockTexts | src/services/textract_client.py:48 | there is one line per LINE block, and the i-th line is the text of the i-th LINE block |
| Textract.LineTextsFirstError | src/services/textract_client.py:48 | the `KeyError` raised is that of the first unreadable block: `BlockType` when its type is missing, `Text` when a LINE block has no text |
| Textract.LineTextsAppend | src/services/textract_client.py:48 | only LINE blocks contribute, and they keep the order of their blocks |
| Textract.Join | src/services/textract_client.py:49 | the joined text starts with the first line, ends with the last, and puts a newline right after the first line when there are several |
| Textract.JoinSeparators | src/services/textract_client.py:49 | joining n newline-free lines inserts exactly n-1 newlines |
| Textract.SplitJoin | src/services/textract_client.py:49 | splitting the joined text at newlines gives back the lines |
| Textract.JoinEmpty | src/services/textract_client.py:49-51 | the joined text is empty iff there are no lines or just one empty line |
| Textract.TextOf | src/services/textract_client.py:48-51 | the result is the joined LINE texts when that text is non-empty; otherwise `NameError` for `e`; a block missing a key gives the KeyError |
| Textract.Extraction | src/services/textract_client.py:34-51 | start and poll errors escape; `SUCCEEDED` and `FAILED` are both read through `TextOf` of the final response; a returned text is never empty |
| Textract.ParsePdfViaTextract | src/services/textract_client.py:17-51 | the poll loop returns `Extraction(job)` |
| Response.Unfilled | src/dto/UploadPdfResponse.py:4-12 | lists exactly the declared fields that are missing or not a mapping |
| Response.Serialize | src/dto/UploadPdfResponse.py:7-12 | a response has exactly the six result fields, each a mapping |
| Response.FromState | src/dto/UploadPdfResponse.py:4-12 | construction succeeds iff all six fields are present mappings, and then carries their values unchanged; otherwise a validation error names every bad field |
| Response.TextsNotInResponse | src/dto/UploadPdfResponse.py:5-6 | `input_text` and `converted_text` are not response fields |
| Response.OnlyResultFieldsMatter | src/dto/UploadPdfResponse.py:4-12 | extra state fields are ignored |
| Response.SerializeRoundTrip | src/dto/UploadPdfResponse.py:4-12 | a serialised response passes the gate back to itself |
| ExceptionHandlers.Handle | src/main.py:20-70 | an HTTP exception keeps its status with `{"error": detail}`; TextractParseError → 502, S3UploadError → 503, GraphExecutionError → 500; every other kind → 500 "Internal Server Error"; all carry `detail` = `str(exc)` |
| ExceptionHandlers.StatusOrigins | src/main.py:28-70 | 502 and 503 come only from their own exception kinds or an HTTP exception carrying them; a database error is a 500 internal error |
| Endpoint.Internal | src/api/endpoint.py:115-116 | the catch-all makes every exception an HTTP 500 carrying `str(e)` |
| Endpoint.Digest | src/api/endpoint.py:73 | the cache key is SHA-256 of the uploaded bytes |
| Endpoint.InitialState | src/api/endpoint.py:95-104 | the graph input holds the eight fields: `input_text` = text (`None` allowed), `converted_text` = "", and six empty mappings |
| Endpoint.Obtain | src/api/endpoint.py:71-88 | on a hit: the fetched text (possibly `None`), no extraction, table unchanged. On a miss: one extraction, stored under the digest. Each failure is wrapped with its source's message |
| Endpoint.Respond | src/api/endpoint.py:91-116 | a graph failure becomes "Error while running graph: …" with no response built; success iff the graph and the schema succeed, and the response is built from the final state alone; every failure is a 500 |
| Endpoint.AfterUpload | src/api/endpoint.py:71-116 | after the upload: the digest is computed first; every failure is a 500; at most one extraction |
| Endpoint.Serve | src/api/endpoint.py:56-116 | a non-PDF request gives a 400 with no call made. Otherwise the upload comes first; an upload failure stops before the cache; every failure is a 500; at most one extraction |
| Endpoint.RouteStatuses | src/api/endpoint.py:57-116 | the handlers answer the route's failures with 400 or 500, never 502 or 503 |
| Endpoint.CacheHit | src/api/endpoint.py:75-77 | on a hit nothing is extracted or stored, and the graph gets the stored text |
| Endpoint.MissThenHit | src/api/endpoint.py:78-88 | a miss extracts once and stores exactly the extracted text under the digest; a later upload of the same bytes hits and gets the identical text without extracting |
| Endpoint.SwallowedWrite | src/api/endpoint.py:85-88 | a client error on the write leaves the table unchanged and the request proceeds with the extracted text |
| Endpoint.SuccessfulResponse | src/api/endpoint.py:106-113 | a successful response carries, under each result field, that leaf's output on the converted text |
| Endpoint.LeafFailureFailsRequest | src/api/endpoint.py:107-110 | when the converted text is produced but one analysis node fails, no response is built and the request fails with the graph error as a 500 |
| Endpoint.ResponseOrderIndependent | src/api/endpoint.py:107-113 | the response does not depend on the leaves' completion order |
| Endpoint.Analyse | src/api/endpoint.py:91-113 | running the graph and gating the final state gives `Respond` |
| Endpoint.PdfRoute.ObtainText | src/api/endpoint.py:71-88 | the cache step yields `Obtain`'s text, leaves the table as `Obtain` says, and logs its calls |
| Endpoint.PdfRoute.UploadPdf | src/api/endpoint.py:34-116 | the route's response, new table and logged calls are exactly those of `Serve` |
| Endpoint.PdfRoute.Process | src/api/endpoint.py:71-113 | the steps after the upload give exactly the response, new table and logged calls of `AfterUpload` |

## Left out

- Prompt builders and prompt text, including the exchange rates: these are
  language-model content. Each chain (prompt, model, output parser) is a
  fallible function from the cleaned text to a JSON value.
- LangGraph's scheduler and concurrency: the six analysis nodes run
  sequentially in an arbitrary completion order, each on the same
  post-entry snapshot. The order is an environment value whose type admits
  only orders of the six analysis nodes. A run stops at the first failure
  in that order, so when several nodes fail, the error that surfaces is that
  of the first to complete.
- Concurrent requests: the model serves one request at a time against the
  table. In the code the `item_exists` probe and the `put_parsed_text` write
  are separate calls, so two concurrent uploads of the same bytes can both
  miss, both extract and both write. `Endpoint.MissThenHit` and the
  at-most-one-extraction bound hold per request served in sequence.
- The async/sync distinction (`ainvoke`, `await`) is not modelled.
- The route's `ping` health check is not modelled.
- S3 upload (`src/utils/s3.py`), its random `uuid4` key and URL: the upload is
  an environment value, either the key or the exception.
- `src/core/config.py` and remote parameter fetches are not part of this
  model.
- Logging and `print` calls are not part of this model.
- `time.sleep` between polls is not part of this model.
- SHA-256 internals: an uninterpreted function onto 64-digit hex strings.
- Textract pagination (`NextToken`): only the final poll response is read,
  as in the code.
- Textract.ParsePdfViaTextract: requires the job to settle. The code polls
  forever when no response ever reaches `SUCCEEDED` or `FAILED`.
- Textract.FinalPoll: requires the job to settle, for the same reason.
- Textract.Extraction: requires the job to settle, for the same reason.
- Endpoint.Obtain: requires the Textract job to settle, for the same reason.
- Endpoint.PdfRoute.ObtainText: requires the Textract job to settle, for the
  same reason.
- Endpoint.Serve: requires the Textract job to settle, for the same reason.
- Endpoint.PdfRoute.UploadPdf: requires the Textract job to settle, for the
  same reason.
- Endpoint.AfterUpload: requires the Textract job to settle, for the same
  reason.
- Endpoint.PdfRoute.Process: requires the Textract job to settle, for the
  same reason.
- Python strings holding lone surrogates, which `.encode('utf-8')` rejects:
  Dafny characters are Unicode scalar values, so such strings cannot be
  written.
- Pydantic's exact validation message: the model keeps only the list of
  offending fields.
- Pydantic's acceptance of non-dict mappings is not modelled.
- JSON numbers are integers in the model: the output parser's floating-point
  numbers are not represented. No modelled step reads a number; values pass
  through unchanged.
- Db.Stored: a write whose call raises an exception other than a client
  error is taken not to have reached the table. The code makes no such
  promise: after a timeout or a dropped connection the item may already have
  been written.
- Errors.Str: a `KeyError` is rendered with its key in single quotes, which is
  Python's rendering only for keys without quotes or backslashes; the keys the
  model raises (`input_text`, `BlockType`, `Text`) are all of that kind.
- A chain's exception is an opaque `ServiceError`; its message text is
  whatever the oracle supplies.
- The `parse_pdf_via_textract` error message for an empty text ("AWS
  Textract error: …") is never produced, because evaluating it raises first.
