/**
 * The decisions of the HTTP routes `generate_qa`, `generate_qa_chunked` and
 * `document_info` (api.py): which status code and body a request gets.
 *
 * Whether the service instance is set is an input. The generators are
 * function parameters that a route applies only once its checks have
 * passed, so "the generator is not called" is "the response does not
 * depend on the generator".
 */
module Api {
  import opened Text
  import opened Results
  import opened QaParsing
  import opened Generation
  import opened Chunking
  import RagCore
  import Config

  /** The JSON body of a response. */
  datatype Body =
    | ErrorBody(error: string)
    | QaBody(count: nat, qaPairs: seq<QAPair>)
    | InfoBody(documentLoaded: bool, documentLength: nat, documentPath: string)

  datatype Response = Response(status: nat, body: Body)

  const NotInitializedMessage: string := "RAG system not initialized"
  const QuestionsMessage: string := "questions parameter must be between 1 and 20"
  const QuestionsPerChunkMessage: string := "questions_per_chunk must be between 1 and 20"
  const ChunkSizeMessage: string := "chunk_size must be between 1000 and 16000"
  const OverlapMessage: string := "overlap must be between 0 and chunk_size-1"
  const TimeoutPrefix: string := "Request timeout: "

  /** `generate_qa_pairs(num_questions)` of the instance: its records or the exception it raises. */
  type QaGenerator = int -> Result<seq<QAPair>, Exception>

  /** `generate_qa_pairs_chunked(num_questions, chunk_size, overlap)` of the instance. */
  type ChunkedGenerator = (int, nat, int) -> Result<seq<QAPair>, Exception>

  const NotInitialized: Response := Response(500, ErrorBody(NotInitializedMessage))

  predicate QuestionsInRange(n: int) {
    Config.MinQuestions <= n <= Config.MaxQuestions
  }

  predicate ChunkSizeInRange(chunkSize: int) {
    Config.MinChunkSize <= chunkSize <= Config.MaxChunkSize
  }

  /** The success response: the records and their count. */
  function Succeeded(qa: seq<QAPair>): (r: Response)
    ensures r.status == 200 && r.body.QaBody? && r.body.count == |r.body.qaPairs| && r.body.qaPairs == qa
  {
    Response(200, QaBody(|qa|, qa))
  }

  /** The `generate_qa` route: any exception of the generator becomes a 500 carrying `str(e)`. */
  function GenerateQa(initialized: bool, numQuestions: int, generate: QaGenerator): (r: Response)
    ensures r.status in {200, 400, 500}
    ensures r.status == 400 <==> initialized && !QuestionsInRange(numQuestions)
    ensures r.status == 200 <==> initialized && QuestionsInRange(numQuestions) && generate(numQuestions).Success?
    ensures r.status == 200 ==> r.body.QaBody? && r.body.count == |r.body.qaPairs|
  {
    if !initialized then NotInitialized
    else if !QuestionsInRange(numQuestions) then Response(400, ErrorBody(QuestionsMessage))
    else
      match generate(numQuestions)
      case Success(qa) => Succeeded(qa)
      case Failure(e) => Response(500, ErrorBody(e.message))
  }

  /**
   * The three parameter checks of `generate_qa_chunked`, in their order:
   * the message of the first that fails, or none when all pass.
   */
  function ChunkedRejection(numQuestions: int, chunkSize: int, overlap: int): (m: Option<string>)
    ensures m == None <==> QuestionsInRange(numQuestions) && ChunkSizeInRange(chunkSize) && 0 <= overlap < chunkSize
  {
    if !QuestionsInRange(numQuestions) then Some(QuestionsPerChunkMessage)
    else if !ChunkSizeInRange(chunkSize) then Some(ChunkSizeMessage)
    else if overlap < 0 || overlap >= chunkSize then Some(OverlapMessage)
    else None
  }

  /**
   * The `generate_qa_chunked` route: a `TimeoutError` of the generator
   * becomes a 504, any other exception a 500.
   */
  function GenerateQaChunked(initialized: bool, numQuestions: int, chunkSize: int, overlap: int,
                             generate: ChunkedGenerator): (r: Response)
    ensures r.status in {200, 400, 500, 504}
    ensures r.status == 400 <==> initialized && ChunkedRejection(numQuestions, chunkSize, overlap).Some?
    ensures r.status == 504 <==>
      && initialized && ChunkedRejection(numQuestions, chunkSize, overlap).None?
      && generate(numQuestions, chunkSize, overlap).Failure?
      && generate(numQuestions, chunkSize, overlap).error.TimeoutError?
    ensures r.status == 200 ==> r.body.QaBody? && r.body.count == |r.body.qaPairs|
  {
    if !initialized then NotInitialized
    else
      match ChunkedRejection(numQuestions, chunkSize, overlap)
      case Some(message) => Response(400, ErrorBody(message))
      case None =>
        match generate(numQuestions, chunkSize, overlap)
        case Success(qa) => Succeeded(qa)
        case Failure(TimeoutError(message)) => Response(504, ErrorBody(TimeoutPrefix + message))
        case Failure(e) => Response(500, ErrorBody(e.message))
  }

  /** The `document_info` route over the instance's document text, if there is an instance. */
  function DocumentInfo(document: Option<string>): (r: Response)
    ensures r.status == 200 <==> document.Some?
    ensures r.status != 200 ==> r == NotInitialized
  {
    match document
    case None => NotInitialized
    case Some(text) => Response(200, InfoBody(text != [], |text|, Config.DefaultPdfPath))
  }

  /** Both generating routes answer 500 "not initialized" before looking at any parameter. */
  lemma NotInitializedFirst(numQuestions: int, chunkSize: int, overlap: int,
                            generate: QaGenerator, generateChunked: ChunkedGenerator)
    ensures GenerateQa(false, numQuestions, generate) == NotInitialized
    ensures GenerateQaChunked(false, numQuestions, chunkSize, overlap, generateChunked) == NotInitialized
    ensures NotInitialized.status == 500
  {
  }

  /**
   * `generate_qa` answers 400 exactly when the instance is set and the
   * question count is out of range; the response is then the same whatever
   * the generator would do, so it is not called.
   */
  lemma GenerateQaRejects(initialized: bool, numQuestions: int, generate: QaGenerator, other: QaGenerator)
    ensures GenerateQa(initialized, numQuestions, generate).status == 400
      <==> initialized && !QuestionsInRange(numQuestions)
    ensures GenerateQa(initialized, numQuestions, generate).status == 400 ==>
      GenerateQa(initialized, numQuestions, generate) == GenerateQa(initialized, numQuestions, other)
  {
  }

  /**
   * `generate_qa` answers 200 exactly when the checks pass and the generator
   * returns records; the body then holds those records and their count.
   * An exception gives 500 with its message.
   */
  lemma GenerateQaOutcome(numQuestions: int, generate: QaGenerator)
    requires QuestionsInRange(numQuestions)
    ensures var r := GenerateQa(true, numQuestions, generate);
      && (r.status == 200 <==> generate(numQuestions).Success?)
      && (generate(numQuestions).Success? ==>
            r.body == QaBody(|generate(numQuestions).value|, generate(numQuestions).value))
      && (generate(numQuestions).Failure? ==>
            r == Response(500, ErrorBody(generate(numQuestions).error.message)))
  {
  }

  /** The chunked checks run in order: a failing check hides the ones after it. */
  lemma ChunkedCheckOrder(numQuestions: int, chunkSize: int, overlap: int)
    ensures !QuestionsInRange(numQuestions) ==>
      ChunkedRejection(numQuestions, chunkSize, overlap) == Some(QuestionsPerChunkMessage)
    ensures QuestionsInRange(numQuestions) && !ChunkSizeInRange(chunkSize) ==>
      ChunkedRejection(numQuestions, chunkSize, overlap) == Some(ChunkSizeMessage)
    ensures QuestionsInRange(numQuestions) && ChunkSizeInRange(chunkSize) && !(0 <= overlap < chunkSize) ==>
      ChunkedRejection(numQuestions, chunkSize, overlap) == Some(OverlapMessage)
  {
  }

  /**
   * A 400 of `generate_qa_chunked` comes from the checks alone: the instance
   * is set, some check fails, and the generator is not called.
   */
  lemma GenerateQaChunkedRejects(initialized: bool, numQuestions: int, chunkSize: int, overlap: int,
                                 generate: ChunkedGenerator, other: ChunkedGenerator)
    ensures GenerateQaChunked(initialized, numQuestions, chunkSize, overlap, generate).status == 400
      <==> initialized && ChunkedRejection(numQuestions, chunkSize, overlap).Some?
    ensures GenerateQaChunked(initialized, numQuestions, chunkSize, overlap, generate).status == 400 ==>
      GenerateQaChunked(initialized, numQuestions, chunkSize, overlap, generate)
        == GenerateQaChunked(initialized, numQuestions, chunkSize, overlap, other)
  {
  }

  /**
   * Every triple the chunked route accepts meets what the chunker needs: a
   * positive window size and an overlap that is neither negative nor as
   * large as the window, so the cursor always advances and the windows
   * cover the text without gaps (`ChunkingCoversText`).
   */
  lemma AcceptedFitsChunker(numQuestions: int, chunkSize: int, overlap: int)
    requires ChunkedRejection(numQuestions, chunkSize, overlap) == None
    ensures 0 < chunkSize && 0 <= overlap < chunkSize
    ensures Config.MinChunkSize <= chunkSize <= Config.MaxChunkSize
  {
  }

  /**
   * Once the checks pass, `generate_qa_chunked` answers 200 with the
   * records and their count when the generator succeeds, 504 on a
   * `TimeoutError` and 500 on any other exception.
   */
  lemma GenerateQaChunkedOutcome(numQuestions: int, chunkSize: int, overlap: int, generate: ChunkedGenerator)
    requires ChunkedRejection(numQuestions, chunkSize, overlap) == None
    ensures var r := GenerateQaChunked(true, numQuestions, chunkSize, overlap, generate);
      var outcome := generate(numQuestions, chunkSize, overlap);
      && (outcome.Success? ==> r.status == 200 && r.body == QaBody(|outcome.value|, outcome.value))
      && (outcome.Failure? && outcome.error.TimeoutError? ==>
            r == Response(504, ErrorBody(TimeoutPrefix + outcome.error.message)))
      && (outcome.Failure? && !outcome.error.TimeoutError? ==>
            r == Response(500, ErrorBody(outcome.error.message)))
  {
  }

  /** Every 200 of the generating routes carries a count equal to the number of records. */
  lemma CountIsLength(initialized: bool, numQuestions: int, chunkSize: int, overlap: int,
                      generate: QaGenerator, generateChunked: ChunkedGenerator)
    ensures var r := GenerateQa(initialized, numQuestions, generate);
      r.status == 200 ==> r.body.QaBody? && r.body.count == |r.body.qaPairs|
    ensures var r := GenerateQaChunked(initialized, numQuestions, chunkSize, overlap, generateChunked);
      r.status == 200 ==> r.body.QaBody? && r.body.count == |r.body.qaPairs|
  {
  }

  /**
   * `document_info` answers 500 without an instance; with one it reports a
   * loaded document exactly when the text is not empty, and its length.
   */
  lemma DocumentInfoMeaning(document: Option<string>)
    ensures var r := DocumentInfo(document);
      && (document.None? <==> r == NotInitialized)
      && (document.Some? ==>
            && r.status == 200 && r.body.InfoBody?
            && (r.body.documentLoaded <==> document.value != [])
            && r.body.documentLength == |document.value|)
  {
  }

  /**
   * The generator of an instance whose document is `document`, as
   * `RagCore.SimpleRag.GenerateQaPairs` specifies it, with the session's
   * request counter at `n`.
   */
  function SessionQaGenerator(document: string, llm: Llm, n: nat): QaGenerator {
    (numQuestions: int) => ParseOutcome(Generate(document, numQuestions, llm, n).outcome)
  }

  /**
   * The `generate_qa` route over an instance: with no document it answers
   * 500 with the `ValueError` message; otherwise it answers 200 exactly when
   * the model replies, with the records parsed from the reply, and 500 with
   * the model's exception otherwise.
   */
  lemma QaRouteOverSession(document: string, llm: Llm, n: nat, numQuestions: int)
    requires QuestionsInRange(numQuestions)
    ensures var r := GenerateQa(true, numQuestions, SessionQaGenerator(document, llm, n));
      var reply := llm(n, PromptFor(numQuestions, document));
      && (document == [] ==> r == Response(500, ErrorBody(NoDocumentMessage)))
      && (document != [] && reply.Replied? ==> r == Succeeded(Parse(reply.text)))
      && (document != [] && reply.Raised? ==> r == Response(500, ErrorBody(reply.error.message)))
  {
  }

  /**
   * The chunked generator of an instance whose document is `document`, as
   * `RagCore.SimpleRag.GenerateQaPairsChunked` specifies it, with the
   * session's request counter at `n`.
   */
  function SessionGenerator(document: string, llm: Llm, n: nat): ChunkedGenerator {
    (numQuestions: int, chunkSize: nat, overlap: int) =>
      if document == [] then Failure(ValueError(NoDocumentMessage))
      else Success(Pairs(RagCore.SessionRuns(document, chunkSize, overlap, numQuestions, llm, n)))
  }

  /**
   * The chunked route over an instance: with no document it answers 500
   * with the `ValueError` message; otherwise it answers 200, and every
   * record it returns has a non-empty question and answer.
   */
  lemma ChunkedRouteOverSession(document: string, llm: Llm, n: nat, numQuestions: int, chunkSize: int, overlap: int)
    requires ChunkedRejection(numQuestions, chunkSize, overlap) == None
    ensures var r := GenerateQaChunked(true, numQuestions, chunkSize, overlap, SessionGenerator(document, llm, n));
      && (document == [] ==> r == Response(500, ErrorBody(NoDocumentMessage)))
      && (document != [] ==>
            && r.status == 200 && r.body.QaBody?
            && forall k :: 0 <= k < |r.body.qaPairs| ==>
                 r.body.qaPairs[k].question != [] && r.body.qaPairs[k].answer != [])
  {
    var r := GenerateQaChunked(true, numQuestions, chunkSize, overlap, SessionGenerator(document, llm, n));
    if document != [] {
      var runs := RagCore.SessionRuns(document, chunkSize, overlap, numQuestions, llm, n);
      assert r.body.qaPairs == Pairs(runs);
      ParseAllFilled(Replies(runs));
    }
  }
}
