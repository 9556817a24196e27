/**
  The data a completion request works with: candidates, and the schemas whose
  completion providers produce them.
 */
module CompletionData {

  /** One entry of a completion list: display text, icon/category tag and description. */
  datatype Candidate = Candidate(displayText: string, category: string, description: string)

  /**
    The completion-provider capability of a schema. Each query is an abstract
    function: what a provider returns is decided by the schema files, which are
    outside the model, and the awaited results are treated as already available.
   */
  datatype CompletionProvider = CompletionProvider(
    elementData: seq<Candidate>,
    childElementData: string -> seq<Candidate>,
    attributeData: string -> seq<Candidate>,
    attributeValueData: (string, string) -> seq<Candidate>)

  /** An HTML schema: a name and its completion provider. */
  datatype HtmlSchema = HtmlSchema(name: string, completionProvider: CompletionProvider)
}
