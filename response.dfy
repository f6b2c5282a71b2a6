/**
 * The response model of the upload route: six required fields, each a
 * string-keyed mapping. Built from the final graph state by keyword expansion,
 * it is a structural gate: extra state fields are ignored, values pass through
 * unchanged, and a missing field or a non-mapping value is a validation error.
 */
module Response {
  import opened Wrappers
  import opened Json
  import opened Errors
  import opened GraphState

  datatype UploadPdfResponse = UploadPdfResponse(
    propertyValuations: map<string, Value>,
    riskPercentage: map<string, Value>,
    businessInterruption: map<string, Value>,
    currentInsurance: map<string, Value>,
    multiCurrencyRisk: map<string, Value>,
    insuranceRecommendation: map<string, Value>)

  /** A state field that can fill a response field: present, and a mapping. */
  predicate Fills(state: State, field: string)
  {
    field in state && IsMapping(state[field])
  }

  /** The fields among `fields` that the state cannot fill, in order. */
  function Unfilled(state: State, fields: seq<string>): (bad: seq<string>)
    ensures forall f :: f in bad <==> f in fields && !Fills(state, f)
  {
    if fields == [] then []
    else (if Fills(state, fields[0]) then [] else [fields[0]]) + Unfilled(state, fields[1..])
  }

  /** The response as a JSON object: exactly the six result fields. */
  function Serialize(response: UploadPdfResponse): (m: map<string, Value>)
    ensures m.Keys == set f | f in ResultFields
    ensures forall f :: f in m ==> IsMapping(m[f])
  {
    map[PropertyValuationsKey := Object(response.propertyValuations),
        RiskPercentageKey := Object(response.riskPercentage),
        BusinessInterruptionKey := Object(response.businessInterruption),
        CurrentInsuranceKey := Object(response.currentInsurance),
        MultiCurrencyRiskKey := Object(response.multiCurrencyRisk),
        InsuranceRecommendationKey := Object(response.insuranceRecommendation)]
  }

  /**
   * `UploadPdfResponse(**state)`: succeeds exactly when the state fills all six
   * fields, and then carries their values unchanged; otherwise it raises a
   * validation error naming every field it could not fill.
   */
  function FromState(state: State): (r: Result<UploadPdfResponse, Error>)
    ensures r.Success? <==> forall f :: f in ResultFields ==> Fills(state, f)
    ensures r.Success? ==> forall f :: f in ResultFields ==> Serialize(r.value)[f] == state[f]
    ensures r.Failure? ==> r.error == ValidationError(Unfilled(state, ResultFields)) && Unfilled(state, ResultFields) != []
  {
    var bad := Unfilled(state, ResultFields);
    if bad != [] then
      assert bad[0] in bad;
      Failure(ValidationError(bad))
    else
      FilledFields(state);
      var response := UploadPdfResponse(
        state[PropertyValuationsKey].fields,
        state[RiskPercentageKey].fields,
        state[BusinessInterruptionKey].fields,
        state[CurrentInsuranceKey].fields,
        state[MultiCurrencyRiskKey].fields,
        state[InsuranceRecommendationKey].fields);
      SerializeFilled(state, response);
      Success(response)
  }

  /** A state that fills every result field holds a mapping under each of the six names. */
  lemma FilledFields(state: State)
    requires forall f :: f in ResultFields ==> Fills(state, f)
    ensures PropertyValuationsKey in state && state[PropertyValuationsKey].Object?
    ensures RiskPercentageKey in state && state[RiskPercentageKey].Object?
    ensures BusinessInterruptionKey in state && state[BusinessInterruptionKey].Object?
    ensures CurrentInsuranceKey in state && state[CurrentInsuranceKey].Object?
    ensures MultiCurrencyRiskKey in state && state[MultiCurrencyRiskKey].Object?
    ensures InsuranceRecommendationKey in state && state[InsuranceRecommendationKey].Object?
  {
    assert PropertyValuationsKey in ResultFields && RiskPercentageKey in ResultFields;
    assert BusinessInterruptionKey in ResultFields && CurrentInsuranceKey in ResultFields;
    assert MultiCurrencyRiskKey in ResultFields && InsuranceRecommendationKey in ResultFields;
  }

  /** The response built from a filling state serializes back to the state's result fields. */
  lemma SerializeFilled(state: State, response: UploadPdfResponse)
    requires PropertyValuationsKey in state && state[PropertyValuationsKey] == Object(response.propertyValuations)
    requires RiskPercentageKey in state && state[RiskPercentageKey] == Object(response.riskPercentage)
    requires BusinessInterruptionKey in state && state[BusinessInterruptionKey] == Object(response.businessInterruption)
    requires CurrentInsuranceKey in state && state[CurrentInsuranceKey] == Object(response.currentInsurance)
    requires MultiCurrencyRiskKey in state && state[MultiCurrencyRiskKey] == Object(response.multiCurrencyRisk)
    requires InsuranceRecommendationKey in state && state[InsuranceRecommendationKey] == Object(response.insuranceRecommendation)
    ensures forall f :: f in ResultFields ==> f in state && Serialize(response)[f] == state[f]
  {
    ResultKeysDistinct();
  }

  /** The input and converted texts are not part of the response. */
  lemma TextsNotInResponse(response: UploadPdfResponse)
    ensures InputTextKey !in Serialize(response) && ConvertedTextKey !in Serialize(response)
  {
  }

  /** Only the six result fields of the state matter; any other field is ignored. */
  lemma OnlyResultFieldsMatter(s1: State, s2: State)
    requires forall f :: f in ResultFields ==> (f in s1 <==> f in s2)
    requires forall f :: f in ResultFields && f in s1 ==> s1[f] == s2[f]
    ensures FromState(s1) == FromState(s2)
  {
    assert Unfilled(s1, ResultFields) == Unfilled(s2, ResultFields) by {
      UnfilledAgree(s1, s2, ResultFields);
    }
  }

  lemma {:induction false} UnfilledAgree(s1: State, s2: State, fields: seq<string>)
    requires forall f :: f in fields ==> (Fills(s1, f) <==> Fills(s2, f))
    ensures Unfilled(s1, fields) == Unfilled(s2, fields)
  {
    if fields != [] {
      UnfilledAgree(s1, s2, fields[1..]);
    }
  }

  /** Reading a serialized response back through the gate gives the same response. */
  lemma SerializeRoundTrip(response: UploadPdfResponse)
    ensures FromState(Serialize(response)) == Success(response)
  {
    ResultKeysDistinct();
    NothingUnfilled(Serialize(response), ResultFields);
  }

  /** A state that fills every one of `fields` leaves none of them unfilled. */
  lemma NothingUnfilled(state: State, fields: seq<string>)
    requires forall f :: f in fields ==> Fills(state, f)
    ensures Unfilled(state, fields) == []
  {
  }
}
