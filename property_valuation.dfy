/** The property-valuation node: an executive summary of the report's key financial figures. */
module PropertyValuation {
  import opened Wrappers
  import opened Json
  import opened Errors
  import opened GraphState

  /**
   * `run_property_valuation`: fail fast on a falsy or absent converted text,
   * otherwise return the parsed chain output unchanged under its own key;
   * a chain failure is re-raised.
   */
  function RunPropertyValuation(state: State, chain: Chain): (r: Result<Fragment, Error>)
    ensures !Truthy(CleanedText(state)) ==> r == Failure(ValueError(MissingConvertedText))
    ensures Truthy(CleanedText(state)) ==> (r.Success? <==> chain(CleanedText(state)).Success?)
    ensures Truthy(CleanedText(state)) && chain(CleanedText(state)).Failure? ==>
      r == Failure(chain(CleanedText(state)).error)
    ensures r.Success? ==> r.value.Keys == {PropertyValuationsKey}
    ensures r.Success? ==> r.value[PropertyValuationsKey] == chain(CleanedText(state)).value
  {
    var cleanedText := CleanedText(state);
    if !Truthy(cleanedText) then Failure(ValueError(MissingConvertedText))
    else
      match chain(cleanedText)
      case Failure(e) => Failure(e)
      case Success(result) => Success(map[PropertyValuationsKey := result])
  }
}
