/**
 * The part of a PageSpeed Insights (Lighthouse) result that the application reads.
 * Every property the code reaches through optional chaining (`?.`) or a `|| default`
 * is an Option; None stands for an absent or null property.
 */
module Lighthouse {
  import opened Wrappers

  /** An entry of `audits["network-requests"].details.items`. */
  datatype ResourceRecord = ResourceRecord(resourceType: Option<string>, resourceSize: Option<nat>)

  /** `details` of an audit: the network-requests audit lists its records in `items`. */
  datatype Details = Details(items: Option<seq<ResourceRecord>>)

  /** One audit: `total-byte-weight` carries `numericValue`, `network-requests` carries `details`. */
  datatype Audit = Audit(numericValue: Option<real>, details: Option<Details>)

  /** The two audits the application reads, `total-byte-weight` and `network-requests`. */
  datatype Audits = Audits(totalByteWeight: Option<Audit>, networkRequests: Option<Audit>)

  /** A Lighthouse category; `score` is a ratio in [0, 1] or null. */
  datatype CategoryScore = CategoryScore(score: Option<real>)

  /** `lighthouseResult.categories`, with `best-practices` written bestPractices. */
  datatype Categories = Categories(
    performance: Option<CategoryScore>,
    accessibility: Option<CategoryScore>,
    bestPractices: Option<CategoryScore>,
    seo: Option<CategoryScore>)

  datatype LighthouseResult = LighthouseResult(audits: Option<Audits>, categories: Option<Categories>)

  /** The JSON body returned by the PageSpeed API. */
  datatype Payload = Payload(lighthouseResult: Option<LighthouseResult>)
}
