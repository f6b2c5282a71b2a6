/** The multi-currency-risk node: foreign-exchange exposures with a quantified likelihood. */
module MultiCurrencyRisk {
  import opened Wrappers
  import opened Json
  import opened Errors
  import opened GraphState

  /**
   * `run_multy_currency_risk`: fail fast on a falsy or absent converted text;
   * a chain failure is re-raised at once, and only after a successful call is
   * the parsed output returned unchanged under its own key.
   */
  function RunMultyCurrencyRisk(state: State, chain: Chain): (r: Result<Fragment, Error>)
    ensures !Truthy(CleanedText(state)) ==> r == Failure(ValueError(MissingConvertedText))
    ensures Truthy(CleanedText(state)) ==> (r.Success? <==> chain(CleanedText(state)).Success?)
    ensures Truthy(CleanedText(state)) && chain(CleanedText(state)).Failure? ==>
      r == Failure(chain(CleanedText(state)).error)
    ensures r.Success? ==> r.value.Keys == {MultiCurrencyRiskKey}
    ensures r.Success? ==> r.value[MultiCurrencyRiskKey] == chain(CleanedText(state)).value
  {
    var cleanedText := CleanedText(state);
    if !Truthy(cleanedText) then Failure(ValueError(MissingConvertedText))
    else
      var result :- chain(cleanedText);
      Success(map[MultiCurrencyRiskKey := result])
  }
}
