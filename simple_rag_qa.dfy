/**
 * The stand-alone variant of the service (simple_rag_qa.py): its own
 * `SimpleRAG` class, with the same line parser, a generator that embeds the
 * same 8000-character prefix but sleeps nowhere, and the `generate_qa` and
 * `document_info` routes with their bounds written as literals. Each piece
 * is proved to agree with its counterpart in `QaParsing`, `Generation` and
 * `Api`.
 */
module SimpleApp {
  import opened Text
  import opened Results
  import opened QaParsing
  import opened Generation
  import RagCore
  import Api

  /** The path the document-info route reports (`example_pdf`). */
  const ExamplePdf: string := "./documento_esempio.pdf"

  class SimpleRag {
    /** `self.document_text`. */
    var documentText: string
    /** How many requests this instance has sent to the model. */
    var requests: nat

    constructor ()
      ensures documentText == [] && requests == 0
    {
      documentText := [];
      requests := 0;
    }

    /** The final step of `extract_text_from_pdf`: the extracted text becomes the document. */
    method SetDocument(text: string)
      modifies this`documentText
      ensures documentText == text
    {
      documentText := text;
    }

    /**
     * `_parse_qa_pairs(qaText)`: the same line scan as the chunking
     * service's parser, so it computes the same function `Parse`.
     */
    method ParseQaPairs(qaText: string) returns (pairs: seq<QAPair>)
      ensures pairs == Parse(qaText)
    {
      var lines := Split(Strip(qaText), '\n');
      ghost var ms := Classified(lines);
      pairs := [];
      var currentQ: string := [];
      var currentA: string := [];
      for i := 0 to |lines|
        invariant pairs + Scan(ms[i..], currentQ, currentA) == Scan(ms, [], [])
      {
        ghost var before, q0, a0 := pairs, currentQ, currentA;
        match Classify(lines[i]) {
          case Question(field) =>
            if currentQ != [] && currentA != [] {
              pairs := pairs + [QAPair(currentQ, currentA)];
            }
            currentQ := field;
            currentA := [];
          case Answer(field) =>
            currentA := field;
          case Other =>
        }
        RagCore.LineStep(ms, i, q0, a0, before, currentQ, currentA, pairs, Scan(ms, [], []));
      }
      assert ms[|lines|..] == [];
      if currentQ != [] && currentA != [] {
        pairs := pairs + [QAPair(currentQ, currentA)];
      }
    }

    /**
     * `generate_qa_pairs(numQuestions)`: without a document it raises
     * `ValueError` and sends nothing; otherwise it sends one request whose
     * prompt embeds the first 8000 characters of the document and parses
     * the reply, or passes the model's exception on. It gives the same
     * outcome and uses the same requests as the chunking service's
     * generator (`Generate`); it only lacks that one's throttle sleep.
     */
    method GenerateQaPairs(numQuestions: int, llm: Llm) returns (result: Result<seq<QAPair>, Exception>)
      modifies this`requests
      ensures result == ParseOutcome(Generate(documentText, numQuestions, llm, old(requests)).outcome)
      ensures requests == old(requests) + Generate(documentText, numQuestions, llm, old(requests)).requests
    {
      if documentText == [] {
        return Failure(ValueError(NoDocumentMessage));
      }
      var prompt := PromptFor(numQuestions, documentText);
      var reply := llm(requests, prompt);
      requests := requests + 1;
      match reply {
        case Replied(qaText) =>
          var pairs := ParseQaPairs(qaText);
          result := Success(pairs);
        case Raised(e) =>
          result := Failure(e);
      }
    }
  }

  /** The `generate_qa` route, with its bounds 1 and 20 written out. */
  function GenerateQa(initialized: bool, numQuestions: int, generate: Api.QaGenerator): (r: Api.Response)
    ensures r.status in {200, 400, 500}
    ensures r.status == 400 <==> initialized && (numQuestions < 1 || numQuestions > 20)
    ensures r.status == 200 ==> r.body.QaBody? && r.body.count == |r.body.qaPairs|
  {
    if !initialized then Api.Response(500, Api.ErrorBody("RAG system not initialized"))
    else if numQuestions < 1 || numQuestions > 20 then
      Api.Response(400, Api.ErrorBody("questions parameter must be between 1 and 20"))
    else
      match generate(numQuestions)
      case Success(qa) => Api.Response(200, Api.QaBody(|qa|, qa))
      case Failure(e) => Api.Response(500, Api.ErrorBody(e.message))
  }

  /** The `document_info` route over the instance's document text, if there is an instance. */
  function DocumentInfo(document: Option<string>): (r: Api.Response)
    ensures r.status == 200 <==> document.Some?
  {
    match document
    case None => Api.Response(500, Api.ErrorBody("RAG system not initialized"))
    case Some(text) => Api.Response(200, Api.InfoBody(text != [], |text|, ExamplePdf))
  }

  /** Both `generate_qa` routes give the same response to every request. */
  lemma SameGenerateQa(initialized: bool, numQuestions: int, generate: Api.QaGenerator)
    ensures GenerateQa(initialized, numQuestions, generate) == Api.GenerateQa(initialized, numQuestions, generate)
  {
  }

  /**
   * Both `document_info` routes give the same response, and so report a
   * loaded document exactly when its text is not empty, and its length.
   */
  lemma SameDocumentInfo(document: Option<string>)
    ensures DocumentInfo(document) == Api.DocumentInfo(document)
    ensures document.Some? ==>
      && DocumentInfo(document).body.InfoBody?
      && (DocumentInfo(document).body.documentLoaded <==> document.value != [])
      && DocumentInfo(document).body.documentLength == |document.value|
  {
  }
}
