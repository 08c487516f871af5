/**
 * `calculateCO2ePerVisit` and the page weight in megabytes from HeroSection.js,
 * over exact real numbers; the `toFixed(2)` that follows each is not modelled.
 */
module Emissions {
  import opened Wrappers
  import opened Lighthouse

  /** `json?.lighthouseResult?.audits?.["total-byte-weight"]?.numericValue || 0`. */
  function TotalByteWeight(json: Option<Payload>): (bytes: real)
    ensures bytes != 0.0 ==>
      && json.Some? && json.value.lighthouseResult.Some?
      && json.value.lighthouseResult.value.audits.Some?
      && json.value.lighthouseResult.value.audits.value.totalByteWeight.Some?
      && json.value.lighthouseResult.value.audits.value.totalByteWeight.value.numericValue == Some(bytes)
    ensures
      && json.Some? && json.value.lighthouseResult.Some?
      && json.value.lighthouseResult.value.audits.Some?
      && json.value.lighthouseResult.value.audits.value.totalByteWeight.Some?
      && json.value.lighthouseResult.value.audits.value.totalByteWeight.value.numericValue.Some?
      ==> bytes == json.value.lighthouseResult.value.audits.value.totalByteWeight.value.numericValue.value
  {
    match json
    case None => 0.0
    case Some(payload) =>
      match payload.lighthouseResult
      case None => 0.0
      case Some(result) =>
        match result.audits
        case None => 0.0
        case Some(audits) =>
          match audits.totalByteWeight
          case None => 0.0
          case Some(audit) => audit.numericValue.GetOr(0.0)
  }

  /** Grams of CO2e per visit: 0.6 g for every 1.8 MiB transferred, that is one gram per 3 MiB. */
  function Co2ePerVisit(totalByteWeight: real): (grams: real)
    ensures grams * 3145728.0 == totalByteWeight
    ensures totalByteWeight >= 0.0 ==> grams >= 0.0
  {
    (totalByteWeight / (1024.0 * 1024.0 * 1.8)) * 0.6
  }

  /** `totalByteWeight / (1024 * 1024)`: the page weight in MiB. */
  function PageWeightMB(totalByteWeight: real): (mb: real)
    ensures mb * 1048576.0 == totalByteWeight
  {
    totalByteWeight / (1024.0 * 1024.0)
  }

  lemma Co2eOfNothing()
    ensures Co2ePerVisit(0.0) == 0.0
  {
  }

  /** A heavier page never emits less. */
  lemma Co2eMonotone(lighter: real, heavier: real)
    requires lighter <= heavier
    ensures Co2ePerVisit(lighter) <= Co2ePerVisit(heavier)
  {
  }

  /** The grams reported are a third of the page weight in MiB. */
  lemma Co2eIsThirdOfPageWeight(totalByteWeight: real)
    ensures Co2ePerVisit(totalByteWeight) * 3.0 == PageWeightMB(totalByteWeight)
  {
  }

  /** A payload without a total-byte-weight audit is read as weighing 0 bytes and emitting 0 g. */
  lemma MissingWeightEmitsNothing(json: Option<Payload>)
    requires json.None? || json.value.lighthouseResult.None?
             || json.value.lighthouseResult.value.audits.None?
             || json.value.lighthouseResult.value.audits.value.totalByteWeight.None?
    ensures TotalByteWeight(json) == 0.0 && Co2ePerVisit(TotalByteWeight(json)) == 0.0
  {
  }
}
