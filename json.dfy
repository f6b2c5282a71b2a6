/**
 * The values that flow through the analysis graph: JSON as produced by the
 * output parser, plus the chat-message object returned by a chain that has no
 * output parser.
 */
module Json {

  datatype Value =
    | Null
    | Bool(b: bool)
    | Num(n: int)
    | Str(s: string)
    | List(items: seq<Value>)
    | Object(fields: map<string, Value>)
      /** A chat-model message object; only its text content is modelled. */
    | Message(content: string)

  /**
   * Python truthiness, as used by `if not cleaned_text`: `None`, `False`, `0`,
   * the empty string, list and dict are falsy. A message object defines neither
   * `__bool__` nor `__len__`, so it is always truthy.
   */
  predicate Truthy(v: Value)
  {
    match v
    case Null => false
    case Bool(b) => b
    case Num(n) => n != 0
    case Str(s) => s != ""
    case List(items) => items != []
    case Object(fields) => fields != map[]
    case Message(_) => true
  }

  /**
   * The falsy values are exactly `None`, `False`, `0`, `""`, `[]` and `{}`; a
   * non-empty string, list or dict and every message object are truthy.
   */
  lemma FalsyValues(v: Value)
    ensures !Truthy(v) <==> v == Null || v == Bool(false) || v == Num(0) || v == Str("") || v == List([]) || v == Object(map[])
    ensures v.Message? ==> Truthy(v)
  {
  }

  /** The values a `Dict[str, Any]` field of a response model accepts. */
  predicate IsMapping(v: Value)
  {
    v.Object?
  }
}
