/** The business-interruption node: quantified lost-revenue and extra-expense exposures. */
module BusinessInterruption {
  import opened Wrappers
  import opened Json
  import opened Errors
  import opened GraphState

  /**
   * `run_business_interruption`: fail fast on a falsy or absent converted
   * text, otherwise return a new fragment holding the parsed chain output
   * unchanged; a chain failure is re-raised.
   */
  function RunBusinessInterruption(state: State, chain: Chain): (r: Result<Fragment, Error>)
    ensures !Truthy(CleanedText(state)) ==> r == Failure(ValueError(MissingConvertedText))
    ensures Truthy(CleanedText(state)) ==> (r.Success? <==> chain(CleanedText(state)).Success?)
    ensures Truthy(CleanedText(state)) && chain(CleanedText(state)).Failure? ==>
      r == Failure(chain(CleanedText(state)).error)
    ensures r.Success? ==> r.value.Keys == {BusinessInterruptionKey}
    ensures r.Success? ==> r.value[BusinessInterruptionKey] == chain(CleanedText(state)).value
  {
    var cleanedText := CleanedText(state);
    if !Truthy(cleanedText) then Failure(ValueError(MissingConvertedText))
    else
      match chain(cleanedText)
      case Failure(e) => Failure(e)
      case Success(result) => Success(map[BusinessInterruptionKey := result])
  }
}
