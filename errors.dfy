/**
 * The exception kinds the request pipeline can raise: the four application
 * exceptions, the Python built-ins the core raises itself, the client error of
 * the AWS SDK, and any other failure of an external call.
 */
module Errors {

  datatype Error =
    | HttpException(status: int, detail: string)
    | S3UploadError(msg: string)
    | TextractParseError(msg: string)
    | GraphExecutionError(msg: string)
    | DbExecutionError(msg: string)
    | ValueError(msg: string)
    | TypeError(msg: string)
      /** `KeyError(key)`, raised by a subscript on a missing dictionary key. */
    | KeyError(key: string)
      /** `NameError`, raised when an undefined name is evaluated. */
    | NameError(name: string)
      /** `botocore.exceptions.ClientError`: an error response from an AWS service. */
    | ClientError(msg: string)
      /** Any other exception from a call into code outside the model (network, LLM, parser). */
    | ServiceError(msg: string)
      /** A response-model validation error, carrying the offending field names. */
    | ValidationError(fields: seq<string>)

  /**
   * `str(e)` for each kind: the message an exception was raised with, the
   * quoted key of a `KeyError` (for a key without quotes or backslashes), the
   * standard sentence of a `NameError`. An
   * HTTP exception renders as its status code, a colon and its detail.
   */
  function Str(e: Error): (s: string)
    ensures e.HttpException? ==> s == IntStr(e.status) + ": " + e.detail
    ensures e.KeyError? ==> s == "'" + e.key + "'"
    ensures e.NameError? ==> s == "name '" + e.name + "' is not defined"
  {
    match e
    case HttpException(status, detail) => IntStr(status) + ": " + detail
    case S3UploadError(msg) => msg
    case TextractParseError(msg) => msg
    case GraphExecutionError(msg) => msg
    case DbExecutionError(msg) => msg
    case ValueError(msg) => msg
    case TypeError(msg) => msg
    case KeyError(key) => "'" + key + "'"
    case NameError(name) => "name '" + name + "' is not defined"
    case ClientError(msg) => msg
    case ServiceError(msg) => msg
    case ValidationError(fields) => "validation error for UploadPdfResponse: " + JoinNames(fields)
  }

  predicate IsDigit(c: char)
  {
    '0' <= c <= '9'
  }

  /** The decimal digits of `n`, most significant first, with no leading zero. */
  function Decimal(n: nat): (s: string)
    ensures |s| > 0 && (forall i :: 0 <= i < |s| ==> IsDigit(s[i]))
    ensures |s| > 1 ==> s[0] != '0'
  {
    if n < 10 then [('0' as int + n) as char]
    else Decimal(n / 10) + [('0' as int + n % 10) as char]
  }

  /** The number a string of decimal digits denotes. */
  function DigitsValue(s: string): nat
    requires forall i :: 0 <= i < |s| ==> IsDigit(s[i])
  {
    if s == [] then 0
    else
      assert IsDigit(s[|s| - 1]);
      DigitsValue(s[..|s| - 1]) * 10 + (s[|s| - 1] as int - '0' as int)
  }

  /** Reading the decimal digits of `n` back gives `n`. */
  lemma {:induction false} DecimalRoundTrip(n: nat)
    ensures DigitsValue(Decimal(n)) == n
  {
    if n >= 10 {
      DecimalRoundTrip(n / 10);
      var s := Decimal(n);
      assert s[..|s| - 1] == Decimal(n / 10);
    }
  }

  /** `f"{i}"` for an integer: a minus sign before the digits of a negative number. */
  function IntStr(i: int): string
  {
    if i < 0 then "-" + Decimal(-i) else Decimal(i)
  }

  function JoinNames(names: seq<string>): string
  {
    if names == [] then ""
    else if |names| == 1 then names[0]
    else names[0] + ", " + JoinNames(names[1..])
  }
}
