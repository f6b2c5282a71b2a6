/**
 * The `parseText` DynamoDB table, seen as a key-to-text store keyed by the
 * content digest, and the digest function itself. Every table call can fail:
 * a client error (an error response from the service) is swallowed by each
 * helper, any other exception escapes to the caller.
 */
module Db {
  import opened Wrappers
  import opened Errors
  import opened Utf8

  /** How a single table call ends, chosen by the environment. */
  datatype DbFault =
    | NoFault
      /** `botocore.exceptions.ClientError`, caught and logged by every helper. */
    | ClientFault
      /** Any other exception (connection, credentials, ...), not caught. */
    | OtherFault(error: Uncaught)

  /** An exception the helpers do not catch: anything but a client error. */
  type Uncaught = e: Error | !e.ClientError? witness ValueError("")

  predicate IsHexDigit(c: char)
  {
    '0' <= c <= '9' || 'a' <= c <= 'f'
  }

  /** A SHA-256 digest as `hexdigest()` writes it: 64 lower-case hex digits. */
  type HexDigest = s: string | |s| == 64 && forall i :: 0 <= i < |s| ==> IsHexDigit(s[i])
    witness seq(64, _ => '0')

  /** SHA-256 over a byte string, left uninterpreted apart from its output format. */
  type Sha256 = seq<byte> -> HexDigest

  /** The Python value handed to the digest function. */
  datatype HashInput =
    | PyStr(s: string)
    | PyBytes(bytes: seq<byte>)
    | PyByteArray(buffer: seq<byte>)
      /** A value of any other type, known by its type name. */
    | PyOther(typeName: string)

  /** The byte string that is hashed: text is UTF-8 encoded, binary data is taken as-is. */
  function Normalize(data: HashInput): (r: Option<seq<byte>>)
    ensures r.None? <==> data.PyOther?
    ensures data.PyStr? ==> Decode(r.value) == Some(data.s)
    ensures data.PyBytes? ==> r == Some(data.bytes)
    ensures data.PyByteArray? ==> r == Some(data.buffer)
  {
    match data
    case PyStr(s) => DecodeEncode(s); Some(Encode(s))
    case PyBytes(b) => Some(b)
    case PyByteArray(b) => Some(b)
    case PyOther(_) => None
  }

  /** `hash_text_sha256(data)`. */
  function HashTextSha256(data: HashInput, sha256: Sha256): (r: Result<HexDigest, Error>)
    ensures r.Success? <==> !data.PyOther?
    ensures r.Success? ==> r.value == sha256(Normalize(data).value)
    ensures data.PyOther? ==>
      r.error == TypeError("hash_text_sha256(): expected str or bytes, got <class '" + data.typeName + "'>")
  {
    match Normalize(data)
    case Some(bytes) => Success(sha256(bytes))
    case None => Failure(TypeError("hash_text_sha256(): expected str or bytes, got <class '" + data.typeName + "'>"))
  }

  /** A string hashes to the digest of its UTF-8 encoding. */
  lemma StrHashesAsEncodedBytes(s: string, sha256: Sha256)
    ensures HashTextSha256(PyStr(s), sha256) == HashTextSha256(PyBytes(Encode(s)), sha256)
  {
    DecodeEncode(s);
    assert Normalize(PyStr(s)) == Some(Encode(s));
  }

  /** A bytearray hashes like the bytes it holds. */
  lemma ByteArrayHashesAsBytes(b: seq<byte>, sha256: Sha256)
    ensures HashTextSha256(PyByteArray(b), sha256) == HashTextSha256(PyBytes(b), sha256)
  {
  }

  /**
   * Distinct strings are hashed as distinct byte strings, so their digests
   * coincide only on a SHA-256 collision.
   */
  lemma DistinctTextsHashDistinctBytes(s1: string, s2: string)
    requires s1 != s2
    ensures Normalize(PyStr(s1)) != Normalize(PyStr(s2))
  {
    if Normalize(PyStr(s1)) == Normalize(PyStr(s2)) {
      EncodeInjective(s1, s2);
    }
  }

  /** The table's contents: for each `textID`, the `parseText` stored with it. */
  type Items = map<string, string>

  /**
   * `item_exists(text_id)`: whether the key is present; `False` on a client
   * error; any other failure escapes.
   */
  function Exists(items: Items, textId: string, fault: DbFault): (r: Result<bool, Error>)
    ensures r.Failure? <==> fault.OtherFault?
    ensures r.Failure? ==> r.error == fault.error
    ensures r == Success(true) <==> fault.NoFault? && textId in items
  {
    match fault
    case NoFault => Success(textId in items)
    case ClientFault => Success(false)
    case OtherFault(e) => Failure(e)
  }

  /**
   * `get_parsed_text(text_id)`: the stored text, `None` for a missing key and
   * on a client error; any other failure escapes.
   */
  function Lookup(items: Items, textId: string, fault: DbFault): (r: Result<Option<string>, Error>)
    ensures r.Failure? <==> fault.OtherFault?
    ensures r.Failure? ==> r.error == fault.error
    ensures r.Success? && r.value.Some? <==> fault.NoFault? && textId in items
    ensures r.Success? && r.value.Some? ==> r.value.value == items[textId]
  {
    match fault
    case NoFault => if textId in items then Success(Some(items[textId])) else Success(None)
    case ClientFault => Success(None)
    case OtherFault(e) => Failure(e)
  }

  /**
   * The contents after `put_parsed_text(text_id, parsed_text)`: the entry for
   * `text_id` overwritten when the write goes through, nothing changed when it
   * fails.
   */
  function Stored(items: Items, textId: string, parsedText: string, fault: DbFault): (m: Items)
    ensures fault.NoFault? ==> m.Keys == items.Keys + {textId} && m[textId] == parsedText
    ensures forall k :: k in items && k != textId ==> k in m && m[k] == items[k]
    ensures !fault.NoFault? ==> m == items
  {
    if fault.NoFault? then items[textId := parsedText] else items
  }

  /**
   * What `put_parsed_text` returns: the service response (here `true`) after a
   * write, `None` (here `false`) after a swallowed client error; any other
   * failure escapes.
   */
  function PutResult(fault: DbFault): (r: Result<bool, Error>)
    ensures r == Success(true) <==> fault.NoFault?
    ensures r == Success(false) <==> fault.ClientFault?
    ensures r.Failure? <==> fault.OtherFault?
  {
    match fault
    case NoFault => Success(true)
    case ClientFault => Success(false)
    case OtherFault(e) => Failure(e)
  }

  /** Every helper catches a client error: none of them lets one escape. */
  lemma ClientErrorsCaught(items: Items, textId: string, parsedText: string, fault: DbFault)
    ensures Exists(items, textId, fault).Failure? ==> !Exists(items, textId, fault).error.ClientError?
    ensures Lookup(items, textId, fault).Failure? ==> !Lookup(items, textId, fault).error.ClientError?
    ensures PutResult(fault).Failure? ==> !PutResult(fault).error.ClientError?
  {
  }

  /** After a successful write, the key exists and reads back the written text. */
  lemma WriteThenRead(items: Items, textId: string, parsedText: string)
    ensures Exists(Stored(items, textId, parsedText, NoFault), textId, NoFault) == Success(true)
    ensures Lookup(Stored(items, textId, parsedText, NoFault), textId, NoFault) == Success(Some(parsedText))
  {
  }

  /** A write, successful or not, leaves every other key's reads as they were. */
  lemma WriteIsolation(items: Items, textId: string, parsedText: string, fault: DbFault, other: string, readFault: DbFault)
    requires other != textId
    ensures Exists(Stored(items, textId, parsedText, fault), other, readFault) == Exists(items, other, readFault)
    ensures Lookup(Stored(items, textId, parsedText, fault), other, readFault) == Lookup(items, other, readFault)
  {
  }

  /** The `parseText` table as the module-level handle the helpers share. */
  class ParseTextTable {
    var items: Items

    constructor(initial: Items)
      ensures items == initial
    {
      items := initial;
    }

    method GetParsedText(textId: string, fault: DbFault) returns (r: Result<Option<string>, Error>)
      ensures r == Lookup(items, textId, fault)
    {
      match fault
      case ClientFault =>
        return Success(None);
      case OtherFault(e) =>
        return Failure(e);
      case NoFault =>
        if textId in items {
          return Success(Some(items[textId]));
        }
        return Success(None);
    }

    method PutParsedText(textId: string, parsedText: string, fault: DbFault) returns (r: Result<bool, Error>)
      modifies this
      ensures items == Stored(old(items), textId, parsedText, fault)
      ensures r == PutResult(fault)
    {
      match fault
      case NoFault =>
        items := items[textId := parsedText];
        return Success(true);
      case ClientFault =>
        return Success(false);
      case OtherFault(e) =>
        return Failure(e);
    }

    method ItemExists(textId: string, fault: DbFault) returns (r: Result<bool, Error>)
      ensures r == Exists(items, textId, fault)
    {
      match fault
      case ClientFault =>
        return Success(false);
      case OtherFault(e) =>
        return Failure(e);
      case NoFault =>
        return Success(textId in items);
    }
  }
}
