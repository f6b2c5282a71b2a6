/**
 * The entry node of the analysis graph: it sends the raw input text through a
 * prompt and a chat model, without an output parser, and stores the resulting
 * message as the converted text.
 */
module CurrencyConversion {
  import opened Wrappers
  import opened Json
  import opened Errors
  import opened GraphState

  /**
   * The prompt-plus-model chain of the entry node: given the input text it
   * returns the text content of the model's reply message, or raises.
   */
  type ConversionChain = Value -> Result<string, Error>

  /**
   * `run_currency_conversion`: subscript `state["input_text"]` (a missing key
   * raises), call the chain synchronously without catching anything, and return
   * a one-key fragment holding the raw reply message.
   */
  function RunCurrencyConversion(state: State, chain: ConversionChain): (r: Result<Fragment, Error>)
    ensures InputTextKey !in state ==> r == Failure(KeyError(InputTextKey))
    ensures r.Success? ==>
      && InputTextKey in state
      && chain(state[InputTextKey]).Success?
      && r.value.Keys == {ConvertedTextKey}
      && r.value[ConvertedTextKey] == Message(chain(state[InputTextKey]).value)
    ensures InputTextKey in state && chain(state[InputTextKey]).Failure? ==>
      r == Failure(chain(state[InputTextKey]).error)
  {
    if InputTextKey !in state then Failure(KeyError(InputTextKey))
    else
      match chain(state[InputTextKey])
      case Failure(e) => Failure(e)
      case Success(content) => Success(map[ConvertedTextKey := Message(content)])
  }

  /**
   * Unlike the analysis nodes, the entry node has no emptiness guard: a present
   * but falsy input text still reaches the chain, and the outcome depends on
   * nothing but the input text and the chain.
   */
  lemma NoEmptinessGuard(s1: State, s2: State, chain: ConversionChain)
    requires InputTextKey in s1 && InputTextKey in s2 && s1[InputTextKey] == s2[InputTextKey]
    ensures RunCurrencyConversion(s1, chain) == RunCurrencyConversion(s2, chain)
    ensures !Truthy(s1[InputTextKey]) && chain(s1[InputTextKey]).Success? ==>
      RunCurrencyConversion(s1, chain).Success?
  {
  }

  /** A successful conversion always leaves a truthy converted text behind. */
  lemma ConvertedTextIsTruthy(state: State, chain: ConversionChain)
    requires RunCurrencyConversion(state, chain).Success?
    ensures Truthy(RunCurrencyConversion(state, chain).value[ConvertedTextKey])
  {
  }
}
