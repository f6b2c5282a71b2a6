/**
 * The `POST /upload-pdf` route: a content-type gate, then upload, digest,
 * a content-addressed extraction cache, the analysis graph and the response
 * schema, with every failure after the gate turned into an HTTP 500.
 */
module Endpoint {
  import opened Wrappers
  import opened Json
  import opened Errors
  import opened GraphState
  import opened Utf8
  import opened Db
  import opened Response
  import opened ExceptionHandlers
  import Tx = Textract
  import G = Graph

  const PdfContentType: string := "application/pdf"
  const NotPdfDetail: string := "Only PDF files are allowed."

  /** A call the route makes, in the order it makes them. */
  datatype Event =
    | Upload
    | Hash
    | Probe(digest: string)
    | Fetch(digest: string)
    | Extract
    | Store(digest: string, text: string)
    | GraphRun

  /** Number of text extractions in a sequence of calls. */
  function ExtractionCount(events: seq<Event>): (n: nat)
    ensures n <= |events|
    ensures n == 0 <==> Extract !in events
  {
    multiset(events)[Extract]
  }

  /**
   * Everything outside the route that decides one request: the S3 upload
   * (its key or its exception), SHA-256, how each table call ends, the
   * Textract job, the analysis chains and the order in which the six analysis
   * nodes complete.
   */
  datatype Environment = Environment(
    upload: Result<string, Error>,
    sha256: Sha256,
    probeFault: DbFault,
    fetchFault: DbFault,
    storeFault: DbFault,
    textract: Tx.TextractJob,
    chains: G.Chains,
    schedule: G.Schedule)

  /**
   * An environment the route can meet: a started Textract job eventually
   * settles. (That the six analysis nodes complete in some order of all six
   * is part of the type of the schedule.)
   */
  predicate Admissible(env: Environment)
  {
    env.textract.Started? ==> Tx.Settles(env.textract.polls)
  }

  /** The catch-all of the route: `HTTPException(status_code=500, detail=str(e))`. */
  function Internal(e: Error): (h: Error)
    ensures h.HttpException? && h.status == 500 && h.detail == Errors.Str(e)
  {
    HttpException(500, Errors.Str(e))
  }

  /** The digest of the uploaded bytes; bytes are always accepted by the digest function. */
  function Digest(contents: seq<byte>, sha256: Sha256): (d: HexDigest)
    ensures d == sha256(contents)
  {
    HashTextSha256(PyBytes(contents), sha256).value
  }

  /** The state handed to the graph: the text, an empty converted text, six empty results. */
  function InitialState(text: Option<string>): (s: State)
    ensures s.Keys == set f | f in Fields
    ensures s[InputTextKey] == (if text.Some? then Json.Str(text.value) else Null)
    ensures s[ConvertedTextKey] == Json.Str("")
    ensures forall f :: f in ResultFields ==> s[f] == Object(map[])
  {
    map[InputTextKey := if text.Some? then Json.Str(text.value) else Null,
        ConvertedTextKey := Json.Str(""),
        PropertyValuationsKey := Object(map[]),
        RiskPercentageKey := Object(map[]),
        BusinessInterruptionKey := Object(map[]),
        CurrentInsuranceKey := Object(map[]),
        MultiCurrencyRiskKey := Object(map[]),
        InsuranceRecommendationKey := Object(map[])]
  }

  /** The outcome of the cache step: the text (or the exception), the new table contents, the calls made. */
  datatype CacheStep = CacheStep(text: Result<Option<string>, Error>, items: Items, events: seq<Event>)

  /**
   * The cache step: probe for the digest; on a hit read the stored text, on a
   * miss extract the text and store it under the digest.
   */
  function Obtain(items: Items, digest: string, key: string, env: Environment): (c: CacheStep)
    requires Admissible(env)
    ensures |c.events| > 0 && c.events[0] == Probe(digest)
    ensures Exists(items, digest, env.probeFault).Failure? ==>
      c == CacheStep(Failure(Exists(items, digest, env.probeFault).error), items, [Probe(digest)])
    ensures Exists(items, digest, env.probeFault) == Success(true) ==>
      c.text == Lookup(items, digest, env.fetchFault) && c.items == items && ExtractionCount(c.events) == 0
    ensures Exists(items, digest, env.probeFault) == Success(false) ==> ExtractionCount(c.events) == 1
    ensures Exists(items, digest, env.probeFault) == Success(false) && Tx.Extraction(env.textract).Failure? ==>
      c.items == items &&
      c.text == Failure(TextractParseError("Textract failed on " + key + ": " + Errors.Str(Tx.Extraction(env.textract).error)))
    ensures Exists(items, digest, env.probeFault) == Success(false) && Tx.Extraction(env.textract).Success? ==>
      var text := Tx.Extraction(env.textract).value;
      && c.items == Stored(items, digest, text, env.storeFault)
      && (env.storeFault.OtherFault? ==>
            c.text == Failure(DbExecutionError("Textract failed on " + key + ": " + Errors.Str(env.storeFault.error))))
      && (!env.storeFault.OtherFault? ==> c.text == Success(Some(text)))
  {
    match Exists(items, digest, env.probeFault)
    case Failure(e) => CacheStep(Failure(e), items, [Probe(digest)])
    case Success(true) => CacheStep(Lookup(items, digest, env.fetchFault), items, [Probe(digest), Fetch(digest)])
    case Success(false) =>
      match Tx.Extraction(env.textract)
      case Failure(e) =>
        CacheStep(Failure(TextractParseError("Textract failed on " + key + ": " + Errors.Str(e))), items, [Probe(digest), Extract])
      case Success(text) =>
        var events := [Probe(digest), Extract, Store(digest, text)];
        var stored := Stored(items, digest, text, env.storeFault);
        match PutResult(env.storeFault)
        case Failure(e) =>
          CacheStep(Failure(DbExecutionError("Textract failed on " + key + ": " + Errors.Str(e))), stored, events)
        case Success(_) => CacheStep(Success(Some(text)), stored, events)
  }

  /**
   * After the cache step: run the graph on the initial state and build the
   * response from the final state; a failure of either becomes an HTTP 500.
   */
  function Respond(text: Result<Option<string>, Error>, env: Environment): (r: Result<UploadPdfResponse, Error>)
    ensures text.Failure? ==> r == Failure(Internal(text.error))
    ensures text.Success? && G.RunGraph(InitialState(text.value), env.chains, env.schedule).Failure? ==>
      r == Failure(Internal(GraphExecutionError("Error while running graph: "
        + Errors.Str(G.RunGraph(InitialState(text.value), env.chains, env.schedule).error))))
    ensures r.Success? <==>
      text.Success? && G.RunGraph(InitialState(text.value), env.chains, env.schedule).Success? &&
      FromState(G.RunGraph(InitialState(text.value), env.chains, env.schedule).value).Success?
    ensures r.Success? ==> r == FromState(G.RunGraph(InitialState(text.value), env.chains, env.schedule).value)
    ensures r.Failure? ==> r.error.HttpException? && r.error.status == 500
  {
    match text
    case Failure(e) => Failure(Internal(e))
    case Success(t) =>
      match G.RunGraph(InitialState(t), env.chains, env.schedule)
      case Failure(e) => Failure(Internal(GraphExecutionError("Error while running graph: " + Errors.Str(e))))
      case Success(final) =>
        match FromState(final)
        case Failure(e) => Failure(Internal(e))
        case Success(response) => Success(response)
  }

  /** The whole request: its response or exception, the new table contents, the calls made. */
  datatype Outcome = Outcome(response: Result<UploadPdfResponse, Error>, items: Items, events: seq<Event>)

  /**
   * The route once the upload has returned `key`: digest the bytes, take the
   * cache step, then run the graph and build the response.
   */
  function AfterUpload(contents: seq<byte>, items: Items, key: string, env: Environment): (o: Outcome)
    requires Admissible(env)
    ensures |o.events| > 0 && o.events[0] == Hash
    ensures o.response.Failure? ==> o.response.error.HttpException? && o.response.error.status == 500
    ensures ExtractionCount(o.events) <= 1
  {
    var c := Obtain(items, Digest(contents, env.sha256), key, env);
    var events := [Hash] + c.events;
    if c.text.Failure? then
      Outcome(Failure(Internal(c.text.error)), c.items, events)
    else
      Outcome(Respond(c.text, env), c.items, events + [GraphRun])
  }

  /** Two calls logged one after the other. */
  lemma LogTwo(log: seq<Event>, a: Event, b: Event)
    ensures log + [a] + [b] == log + [a, b]
  {
  }

  /** Three calls logged one after the other. */
  lemma LogThree(log: seq<Event>, a: Event, b: Event, c: Event)
    ensures log + [a] + [b] + [c] == log + [a, b, c]
  {
  }

  /** `upload_pdf(file)` as a function of the request, the table contents and the environment. */
  function Serve(contentType: string, contents: seq<byte>, items: Items, env: Environment): (o: Outcome)
    requires Admissible(env)
    ensures contentType != PdfContentType ==> o == Outcome(Failure(HttpException(400, NotPdfDetail)), items, [])
    ensures contentType == PdfContentType ==> |o.events| > 0 && o.events[0] == Upload
    ensures contentType == PdfContentType && env.upload.Failure? ==>
      o == Outcome(Failure(Internal(S3UploadError("Failed to upload to S3: " + Errors.Str(env.upload.error)))), items, [Upload])
    ensures contentType == PdfContentType && o.response.Failure? ==>
      o.response.error.HttpException? && o.response.error.status == 500
    ensures ExtractionCount(o.events) <= 1
  {
    if contentType != PdfContentType then
      Outcome(Failure(HttpException(400, NotPdfDetail)), items, [])
    else
      match env.upload
      case Failure(e) =>
        Outcome(Failure(Internal(S3UploadError("Failed to upload to S3: " + Errors.Str(e)))), items, [Upload])
      case Success(key) =>
        var p := AfterUpload(contents, items, key, env);
        Outcome(p.response, p.items, [Upload] + p.events)
  }

  /** A PDF request whose upload succeeded is the cache step followed by the graph and the schema. */
  lemma ServeUnfold(contents: seq<byte>, items: Items, env: Environment)
    requires Admissible(env) && env.upload.Success?
    ensures var c := Obtain(items, Digest(contents, env.sha256), env.upload.value, env);
      Serve(PdfContentType, contents, items, env) ==
        if c.text.Failure? then Outcome(Failure(Internal(c.text.error)), c.items, [Upload, Hash] + c.events)
        else Outcome(Respond(c.text, env), c.items, [Upload, Hash] + c.events + [GraphRun])
  {
    var c := Obtain(items, Digest(contents, env.sha256), env.upload.value, env);
    assert [Upload] + ([Hash] + c.events) == [Upload, Hash] + c.events;
    assert [Upload] + ([Hash] + c.events + [GraphRun]) == [Upload, Hash] + c.events + [GraphRun];
  }

  /**
   * The exception handlers see a 400 for a non-PDF request and a 500 for every
   * other failure, never the 502 of a Textract failure or the 503 of an S3
   * failure.
   */
  lemma RouteStatuses(contentType: string, contents: seq<byte>, items: Items, env: Environment)
    requires Admissible(env)
    requires Serve(contentType, contents, items, env).response.Failure?
    ensures Handle(Serve(contentType, contents, items, env).response.error).status ==
      (if contentType == PdfContentType then 500 else 400)
    ensures Handle(Serve(contentType, contents, items, env).response.error).status !in {502, 503}
  {
  }

  /** On a cache hit nothing is extracted or stored, and the graph gets the stored text. */
  lemma CacheHit(contents: seq<byte>, items: Items, env: Environment)
    requires Admissible(env) && env.upload.Success?
    requires Digest(contents, env.sha256) in items && env.probeFault.NoFault? && env.fetchFault.NoFault?
    ensures var o := Serve(PdfContentType, contents, items, env);
      && o.items == items
      && ExtractionCount(o.events) == 0
      && o.response == Respond(Success(Some(items[Digest(contents, env.sha256)])), env)
  {
    var d := Digest(contents, env.sha256);
    var c := Obtain(items, d, env.upload.value, env);
    assert c.text == Success(Some(items[d])) && c.items == items && ExtractionCount(c.events) == 0;
  }

  /**
   * On a miss the text is extracted once and stored under the digest of the
   * contents; a later upload of the same contents then hits the cache and
   * hands the graph the identical text without extracting again.
   */
  lemma MissThenHit(contents: seq<byte>, items: Items, env1: Environment, env2: Environment)
    requires Admissible(env1) && Admissible(env2)
    requires env1.upload.Success? && env2.upload.Success? && env1.sha256 == env2.sha256
    requires Digest(contents, env1.sha256) !in items && env1.probeFault.NoFault? && env1.storeFault.NoFault?
    requires Tx.Extraction(env1.textract).Success?
    requires env2.probeFault.NoFault? && env2.fetchFault.NoFault?
    ensures var o1 := Serve(PdfContentType, contents, items, env1);
      var text := Tx.Extraction(env1.textract).value;
      && o1.items == items[Digest(contents, env1.sha256) := text]
      && ExtractionCount(o1.events) == 1
      && Store(Digest(contents, env1.sha256), text) in o1.events
      && o1.response == Respond(Success(Some(text)), env1)
      && var o2 := Serve(PdfContentType, contents, o1.items, env2);
      && o2.items == o1.items
      && ExtractionCount(o2.events) == 0
      && o2.response == Respond(Success(Some(text)), env2)
  {
    var o1 := Serve(PdfContentType, contents, items, env1);
    var d := Digest(contents, env1.sha256);
    var text := Tx.Extraction(env1.textract).value;
    assert o1.items == Stored(items, d, text, NoFault);
    CacheHit(contents, o1.items, env2);
  }

  /**
   * A client error on the write is swallowed: the request goes on with the
   * extracted text and the table is unchanged, so no database error is raised.
   */
  lemma SwallowedWrite(contents: seq<byte>, items: Items, env: Environment)
    requires Admissible(env) && env.upload.Success?
    requires Exists(items, Digest(contents, env.sha256), env.probeFault) == Success(false)
    requires Tx.Extraction(env.textract).Success? && env.storeFault.ClientFault?
    ensures var o := Serve(PdfContentType, contents, items, env);
      o.items == items && o.response == Respond(Success(Some(Tx.Extraction(env.textract).value)), env)
  {
  }

  /**
   * A successful response carries, under each result field, the output of the
   * analysis node that owns it on the converted text; it does not depend on
   * the order in which the analysis nodes complete.
   */
  lemma SuccessfulResponse(text: Option<string>, env: Environment, n: G.Node)
    requires Respond(Success(text), env).Success?
    requires n in G.Leaves
    ensures var initial := InitialState(text);
      && G.RunNode(G.EntryPoint, initial, env.chains).Success?
      && G.RunNode(n, G.Snapshot(initial, env.chains), env.chains).Success?
      && G.Writes(n) in Serialize(Respond(Success(text), env).value)
      && Serialize(Respond(Success(text), env).value)[G.Writes(n)]
           == G.Output(n, G.Snapshot(initial, env.chains), env.chains)
  {
    var initial := InitialState(text);
    G.RunGraphFinalState(initial, env.chains, env.schedule);
    G.LeavesWriteResultFields();
    G.WrittenMembers(G.Leaves, G.Writes(n));
  }

  /**
   * All or nothing at the route: when the converted text is produced but one
   * analysis node fails on it, no response is built and the request fails
   * with the graph error as a 500.
   */
  lemma LeafFailureFailsRequest(text: Option<string>, env: Environment, n: G.Node)
    requires G.RunNode(G.EntryPoint, InitialState(text), env.chains).Success?
    requires n in G.Leaves && G.RunNode(n, G.Snapshot(InitialState(text), env.chains), env.chains).Failure?
    ensures Respond(Success(text), env).Failure?
    ensures G.RunGraph(InitialState(text), env.chains, env.schedule).Failure?
    ensures Respond(Success(text), env).error == Internal(GraphExecutionError("Error while running graph: "
      + Errors.Str(G.RunGraph(InitialState(text), env.chains, env.schedule).error)))
  {
    G.RunGraphSucceeds(InitialState(text), env.chains, env.schedule);
  }

  /** Two completion orders give the same successful response. */
  lemma ResponseOrderIndependent(text: Option<string>, env: Environment, order: seq<G.Node>)
    requires G.IsSchedule(order)
    ensures Respond(Success(text), env).Success? == Respond(Success(text), env.(schedule := order)).Success?
    ensures Respond(Success(text), env).Success? ==>
      Respond(Success(text), env) == Respond(Success(text), env.(schedule := order))
  {
    G.RunGraphOrderIndependent(InitialState(text), env.chains, env.schedule, order);
  }

  /** The route, holding the shared table and the calls it has made so far. */
  class PdfRoute {
    const table: ParseTextTable
    ghost var log: seq<Event>

    constructor(table: ParseTextTable)
      ensures this.table == table && log == []
    {
      this.table := table;
      log := [];
    }

    /** The number of text extractions the route has started. */
    ghost function Extractions(): nat
      reads this
    {
      ExtractionCount(log)
    }

    /** The cache step of the route: probe the cache, then read it or extract and store. */
    method ObtainText(digest: string, key: string, env: Environment) returns (text: Result<Option<string>, Error>)
      requires Admissible(env)
      modifies this, table
      ensures var c := Obtain(old(table.items), digest, key, env);
        text == c.text && table.items == c.items && log == old(log) + c.events
    {
      ghost var log0 := log;
      var present := table.ItemExists(digest, env.probeFault);
      log := log + [Probe(digest)];
      if present.Failure? {
        return Failure(present.error);
      }
      if present.value {
        text := table.GetParsedText(digest, env.fetchFault);
        log := log + [Fetch(digest)];
        LogTwo(log0, Probe(digest), Fetch(digest));
        return;
      }
      var parsed := Tx.ParsePdfViaTextract(env.textract);
      log := log + [Extract];
      LogTwo(log0, Probe(digest), Extract);
      if parsed.Failure? {
        return Failure(TextractParseError("Textract failed on " + key + ": " + Errors.Str(parsed.error)));
      }
      var put := table.PutParsedText(digest, parsed.value, env.storeFault);
      log := log + [Store(digest, parsed.value)];
      LogThree(log0, Probe(digest), Extract, Store(digest, parsed.value));
      if put.Failure? {
        return Failure(DbExecutionError("Textract failed on " + key + ": " + Errors.Str(put.error)));
      }
      text := Success(Some(parsed.value));
    }

    /** `upload_pdf(file)`, with the file's content type and contents. */
    method UploadPdf(contentType: string, contents: seq<byte>, env: Environment) returns (r: Result<UploadPdfResponse, Error>)
      requires Admissible(env)
      modifies this, table
      ensures var o := Serve(contentType, contents, old(table.items), env);
        r == o.response && table.items == o.items && log == old(log) + o.events
    {
      if contentType != PdfContentType {
        return Failure(HttpException(400, NotPdfDetail));
      }
      ghost var items0, log0 := table.items, log;
      log := log + [Upload];
      if env.upload.Failure? {
        return Failure(Internal(S3UploadError("Failed to upload to S3: " + Errors.Str(env.upload.error))));
      }
      ghost var p := AfterUpload(contents, items0, env.upload.value, env);
      r := Process(contents, env.upload.value, env);
      AppendAssoc(log0, [Upload], p.events);
    }

    /** The route once the upload has returned `key`: digest, cache step, graph and response. */
    method Process(contents: seq<byte>, key: string, env: Environment) returns (r: Result<UploadPdfResponse, Error>)
      requires Admissible(env)
      modifies this, table
      ensures var o := AfterUpload(contents, old(table.items), key, env);
        r == o.response && table.items == o.items && log == old(log) + o.events
    {
      var hashed := HashTextSha256(PyBytes(contents), env.sha256);
      var digest := hashed.value;
      ghost var items0, log0 := table.items, log;
      log := log + [Hash];
      ghost var c := Obtain(items0, digest, key, env);
      var text := ObtainText(digest, key, env);
      AppendAssoc(log0, [Hash], c.events);
      if text.Failure? {
        return Failure(Internal(text.error));
      }
      log := log + [GraphRun];
      AppendAssoc(log0, [Hash] + c.events, [GraphRun]);
      r := Analyse(text.value, env);
    }
  }

  /** The analysis step of the route: run the graph on the initial state and gate the final state. */
  method Analyse(text: Option<string>, env: Environment) returns (r: Result<UploadPdfResponse, Error>)
    ensures r == Respond(Success(text), env)
  {
    var finalState := G.RunGraph(InitialState(text), env.chains, env.schedule);
    if finalState.Failure? {
      return Failure(Internal(GraphExecutionError("Error while running graph: " + Errors.Str(finalState.error))));
    }
    r := FromState(finalState.value);
    if r.Failure? {
      r := Failure(Internal(r.error));
    }
  }
}
