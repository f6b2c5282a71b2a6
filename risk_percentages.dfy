/** The risk-percentage node: probability, frequency and percentage statements. */
module RiskPercentages {
  import opened Wrappers
  import opened Json
  import opened Errors
  import opened GraphState

  /**
   * `run_risk_percentage`: fail fast on a falsy or absent converted text,
   * otherwise return the parsed chain output under its own key, wrapping a
   * list result into a mapping; a chain failure is re-raised.
   */
  function RunRiskPercentage(state: State, chain: Chain): (r: Result<Fragment, Error>)
    ensures !Truthy(CleanedText(state)) ==> r == Failure(ValueError(MissingConvertedText))
    ensures Truthy(CleanedText(state)) ==> (r.Success? <==> chain(CleanedText(state)).Success?)
    ensures Truthy(CleanedText(state)) && chain(CleanedText(state)).Failure? ==>
      r == Failure(chain(CleanedText(state)).error)
    ensures r.Success? ==> r.value.Keys == {RiskPercentageKey}
    ensures r.Success? ==> r.value[RiskPercentageKey] == Wrap(chain(CleanedText(state)).value)
  {
    var cleanedText := CleanedText(state);
    if !Truthy(cleanedText) then Failure(ValueError(MissingConvertedText))
    else
      match chain(cleanedText)
      case Failure(e) => Failure(e)
      case Success(result) => Success(map[RiskPercentageKey := Wrap(result)])
  }

  /** A top-level list is wrapped as `{"risks": list}`; anything else is kept as it is. */
  function Wrap(result: Value): (wrapped: Value)
    ensures result.List? ==> wrapped == Object(map["risks" := result])
    ensures !result.List? ==> wrapped == result
  {
    if result.List? then Object(map["risks" := result]) else result
  }

  /** Whatever the parser returns, a list result becomes a mapping. */
  lemma ListResultBecomesMapping(result: Value)
    requires result.List? || result.Object?
    ensures IsMapping(Wrap(result))
  {
  }
}
