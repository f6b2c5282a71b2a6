/**
 * The application's exception handlers: each turns an exception that escaped a
 * route into a JSON response with a status code. Handlers are chosen by the
 * exception's class; every class without its own handler falls back to the
 * handler registered for `Exception`.
 */
module ExceptionHandlers {
  import opened Errors

  datatype JsonResponse = JsonResponse(status: int, content: map<string, string>)

  /** The response for an exception that escaped a route. */
  function Handle(e: Error): (r: JsonResponse)
    ensures e.HttpException? ==> r == JsonResponse(e.status, map["error" := e.detail])
    ensures !e.HttpException? ==>
      r.content.Keys == {"error", "detail"} && r.content["detail"] == Str(e)
    ensures e.TextractParseError? ==> r.status == 502 && r.content["error"] == "Textract parsing failed"
    ensures e.S3UploadError? ==> r.status == 503 && r.content["error"] == "S3 upload failed"
    ensures e.GraphExecutionError? ==> r.status == 500 && r.content["error"] == "Graph execution failed"
    ensures !(e.HttpException? || e.TextractParseError? || e.S3UploadError? || e.GraphExecutionError?) ==>
      r.status == 500 && r.content["error"] == "Internal Server Error"
  {
    match e
    case HttpException(status, detail) => JsonResponse(status, map["error" := detail])
    case TextractParseError(_) =>
      JsonResponse(502, map["error" := "Textract parsing failed", "detail" := Str(e)])
    case S3UploadError(_) =>
      JsonResponse(503, map["error" := "S3 upload failed", "detail" := Str(e)])
    case GraphExecutionError(_) =>
      JsonResponse(500, map["error" := "Graph execution failed", "detail" := Str(e)])
    case _ =>
      JsonResponse(500, map["error" := "Internal Server Error", "detail" := Str(e)])
  }

  /**
   * Statuses 502 and 503 come only from their own exception classes (or an
   * HTTP exception that carries them); a database error is an internal error.
   */
  lemma StatusOrigins(e: Error)
    ensures Handle(e).status == 502 <==> e.TextractParseError? || (e.HttpException? && e.status == 502)
    ensures Handle(e).status == 503 <==> e.S3UploadError? || (e.HttpException? && e.status == 503)
    ensures e.DbExecutionError? ==> Handle(e) == JsonResponse(500, map["error" := "Internal Server Error", "detail" := e.msg])
  {
  }
}
