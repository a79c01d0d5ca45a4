/** The research state: sub-questions, documents, claims and the findings they are clustered into. */
module Evidence {
  datatype Validation = Legacy | Affirmed | Unsupported | Unavailable

  // Optional texts are empty when absent.
  datatype Claim = Claim(
    id: string, subqId: string, facetId: string, docId: string, originId: string, text: string, quote: string,
    value: string, unit: string,
    entity: string, attributedTo: string, conditions: seq<string>, effectiveFrom: string, effectiveUntil: string,
    asOf: string, timeSensitive: bool, requiresFresh: bool, validation: Validation)

  // `url` is `canonical_url or url`, `title` is the page title, possibly empty.
  datatype Document = Document(originId: string, url: string, title: string, domain: string, score: real, isPrimary: bool)

  datatype ClusterStatus = Supported | SingleSourced | Contested

  datatype Cluster = Cluster(
    id: string, subqId: string, claimIds: seq<string>, docIds: seq<string>, originIds: seq<string>, facetIds: seq<string>,
    statement: string, value: string, entity: string, conditions: seq<string>, effectiveFrom: string, effectiveUntil: string,
    requiresFresh: bool, confidence: real, bestScore: real, hasPrimary: bool, status: ClusterStatus)

  datatype SubQuestionStatus = Pending | Searching | Sufficient | Exhausted

  datatype Facet = Facet(id: string, sufficient: bool)

  // `reason` says why it was given up.
  datatype SubQuestion = SubQuestion(
    id: string, text: string, must: bool, facets: seq<Facet>, status: SubQuestionStatus, idle: nat, reason: string)
}
