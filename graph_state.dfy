/**
 * The shared state of the analysis graph: a dictionary from field name to value
 * with eight declared fields, the raw input text, the currency-normalised text
 * and one result field per analysis task.
 */
module GraphState {
  import opened Wrappers
  import opened Json
  import opened Errors

  type State = map<string, Value>

  /** A node's return value: the fields it updates, merged into the state by name. */
  type Fragment = map<string, Value>

  const InputTextKey: string := "input_text"
  const ConvertedTextKey: string := "converted_text"

  const PropertyValuationsKey: string := "property_valuations_s"
  const RiskPercentageKey: string := "risk_percentage_s"
  const BusinessInterruptionKey: string := "business_interruption_s"
  const CurrentInsuranceKey: string := "current_insurance_s"
  const MultiCurrencyRiskKey: string := "multi_currency_risk_s"
  const InsuranceRecommendationKey: string := "insurance_recommendation_s"

  /**
   * An analysis chain (prompt, chat model and JSON output parser) as seen by a
   * node: it is given the cleaned text and returns the parsed JSON or raises.
   */
  type Chain = Value -> Result<Value, Error>

  /** The message every analysis node raises when its guard fails. */
  const MissingConvertedText: string := "Missing 'converted_text' key in state dict"

  /** The six result fields, in declaration order. */
  const ResultFields: seq<string> :=
    [PropertyValuationsKey, RiskPercentageKey, BusinessInterruptionKey,
     CurrentInsuranceKey, MultiCurrencyRiskKey, InsuranceRecommendationKey]

  /** All eight declared fields, in declaration order. */
  const Fields: seq<string> := [InputTextKey, ConvertedTextKey] + ResultFields

  /** `state.get(key)`: the value under `key`, or `None` when it is absent. */
  function Get(state: State, key: string): (v: Value)
    ensures key !in state ==> v == Null
    ensures key in state ==> v == state[key]
  {
    if key in state then state[key] else Null
  }

  /** `state.get("converted_text")`, the only field an analysis node reads. */
  function CleanedText(state: State): Value
  {
    Get(state, ConvertedTextKey)
  }

  /** The state with every field of `fragment` written over it. */
  function Merge(state: State, fragment: Fragment): (r: State)
    ensures r.Keys == state.Keys + fragment.Keys
    ensures forall k :: k in fragment ==> r[k] == fragment[k]
    ensures forall k :: k in state && k !in fragment ==> r[k] == state[k]
  {
    state + fragment
  }

  /** The six result fields are pairwise distinct names. */
  lemma ResultKeysDistinct()
    ensures PropertyValuationsKey != RiskPercentageKey && PropertyValuationsKey != BusinessInterruptionKey && PropertyValuationsKey != CurrentInsuranceKey && PropertyValuationsKey != MultiCurrencyRiskKey && PropertyValuationsKey != InsuranceRecommendationKey
    ensures RiskPercentageKey != BusinessInterruptionKey && RiskPercentageKey != CurrentInsuranceKey && RiskPercentageKey != MultiCurrencyRiskKey && RiskPercentageKey != InsuranceRecommendationKey
    ensures BusinessInterruptionKey != CurrentInsuranceKey && BusinessInterruptionKey != MultiCurrencyRiskKey && BusinessInterruptionKey != InsuranceRecommendationKey
    ensures CurrentInsuranceKey != MultiCurrencyRiskKey && CurrentInsuranceKey != InsuranceRecommendationKey
    ensures MultiCurrencyRiskKey != InsuranceRecommendationKey
  {
  }

  lemma SchemaShape()
    ensures |Fields| == 8 && |ResultFields| == 6
    ensures forall i, j :: 0 <= i < j < |Fields| ==> Fields[i] != Fields[j]
    ensures InputTextKey !in ResultFields && ConvertedTextKey !in ResultFields
  {
  }
}
