/** The insurance-recommendation node: distinct recommendations with rationale and timeline. */
module InsuranceRecommendation {
  import opened Wrappers
  import opened Json
  import opened Errors
  import opened GraphState

  /**
   * `run_insurance_recommendation`: fail fast on a falsy or absent converted
   * text, otherwise return the raw parsed chain output under its own key (the
   * wrapped form it computes is unused); a chain failure is re-raised.
   */
  function RunInsuranceRecommendation(state: State, chain: Chain): (r: Result<Fragment, Error>)
    ensures !Truthy(CleanedText(state)) ==> r == Failure(ValueError(MissingConvertedText))
    ensures Truthy(CleanedText(state)) ==> (r.Success? <==> chain(CleanedText(state)).Success?)
    ensures Truthy(CleanedText(state)) && chain(CleanedText(state)).Failure? ==>
      r == Failure(chain(CleanedText(state)).error)
    ensures r.Success? ==> r.value.Keys == {InsuranceRecommendationKey}
    ensures r.Success? ==> r.value[InsuranceRecommendationKey] == chain(CleanedText(state)).value
  {
    var cleanedText := CleanedText(state);
    if !Truthy(cleanedText) then Failure(ValueError(MissingConvertedText))
    else
      match chain(cleanedText)
      case Failure(e) => Failure(e)
      case Success(result) =>
        // A list result is wrapped here as in the risk-percentage node, but the
        // wrapped value is discarded and the raw result is returned.
        var wrapped := if result.List? then Object(map["risks" := result]) else result;
        Success(map[InsuranceRecommendationKey := result])
  }

  /** A list result stays a list in the fragment: it is not turned into a mapping. */
  lemma ListResultStaysList(state: State, chain: Chain)
    requires Truthy(CleanedText(state))
    requires chain(CleanedText(state)).Success? && chain(CleanedText(state)).value.List?
    ensures RunInsuranceRecommendation(state, chain).Success?
    ensures !IsMapping(RunInsuranceRecommendation(state, chain).value[InsuranceRecommendationKey])
  {
  }
}
