/** The shape of one competitor record as the widgets read it. The dataset
  * itself lives elsewhere in the repository; only its fields are declared. */
module Competitors {

  datatype StructureItem = StructureItem(heading: string, detail: string)  // the source calls `heading` "label", a Dafny keyword

  datatype Metrics = Metrics(
    score: int,           // experience score, shown as "<score>/100"
    performance: string,  // free text with an embedded "LCP <number>s" token
    mobile: string,
    seo: string)

  datatype Competitor = Competitor(
    name: string,
    url: string,
    tagline: string,
    summary: string,
    structure: seq<StructureItem>,
    coreFeatures: seq<string>,
    uiPatterns: seq<string>,
    seoNotes: seq<string>,
    strengths: seq<string>,
    weaknesses: seq<string>,
    metrics: Metrics)
}
