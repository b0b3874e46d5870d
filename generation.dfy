/**
 * Specification of Q&A generation against the language model
 * (`SimpleRAG.generate_qa_pairs` and the per-chunk retry of
 * `SimpleRAG.generate_qa_pairs_chunked`).
 *
 * The model is an oracle `Llm`: a total function from the index of the
 * request in the session and the prompt to a reply, which is either the
 * reply text or a raised exception. Sleeping is recorded as events: the
 * throttle delay after every request and the backoff before a retry.
 */
module Generation {
  import opened Text
  import opened Results
  import opened QaParsing
  import Config

  /** The exceptions the generation path can raise or pass on. */
  datatype Exception = ValueError(message: string) | TimeoutError(message: string) | OtherError(message: string)

  /** The prompt: how many pairs to ask for, and the document text it embeds. */
  datatype Prompt = Prompt(numQuestions: int, document: string)

  /** What a request to the model gives back: the first content block's text, or an exception. */
  datatype Reply = Replied(text: string) | Raised(error: Exception)

  /** The language model: request index and prompt to reply. */
  type Llm = (nat, Prompt) -> Reply

  /** The throttle delay after each request, or an exponential backoff of some seconds. */
  datatype Wait = Throttle | Backoff(seconds: nat)

  /** One observable step of a generation run. */
  datatype Event = Request(prompt: Prompt) | Sleep(wait: Wait)

  /** The error entry of a chunk that exhausted its retries: chunk number, attempt number, `str(e)`. */
  datatype ChunkError = ChunkError(chunk: nat, attempt: nat, message: string)

  /** At most this many characters of the document go into a prompt. */
  const PromptLimit: nat := 8000

  const NoDocumentMessage: string := "Nessun documento caricato. Usa extract_text_from_pdf() prima."

  /** The prompt for `numQuestions` pairs over `document`: it embeds `document[:8000]`. */
  function PromptFor(numQuestions: int, document: string): Prompt {
    Prompt(numQuestions, Prefix(document, PromptLimit))
  }

  /**
   * One call of the generator: the reply text it parses (or the exception
   * it raises or passes on), its events and how many requests it used.
   */
  datatype Call = Call(outcome: Result<string, Exception>, events: seq<Event>, requests: nat)

  /** The events of one request: the request itself and the throttle delay of its `finally`. */
  function CallEvents(p: Prompt): seq<Event> {
    [Request(p), Sleep(Throttle)]
  }

  /**
   * `generate_qa_pairs(numQuestions)` with `document` in `document_text`, as
   * request number `n` of the session.
   */
  function Generate(document: string, numQuestions: int, llm: Llm, n: nat): Call {
    if document == [] then Call(Failure(ValueError(NoDocumentMessage)), [], 0)
    else
      var p := PromptFor(numQuestions, document);
      var reply := llm(n, p);
      Call(if reply.Replied? then Success(reply.text) else Failure(reply.error), CallEvents(p), 1)
  }

  /** A reply text turned into records by the parser; an error stays as it is. */
  function ParseOutcome<E>(outcome: Result<string, E>): Result<seq<QAPair>, E> {
    match outcome
    case Success(text) => Success(Parse(text))
    case Failure(e) => Failure(e)
  }

  /**
   * Without a document the generator raises `ValueError` before any request
   * or sleep. With one it sends exactly one request, whose prompt embeds the
   * first 8000 characters of the document, and sleeps the throttle delay
   * afterwards whether the reply is an answer or an exception; an answer is
   * handed to the parser and an exception is passed on.
   */
  lemma GenerateMeaning(document: string, numQuestions: int, llm: Llm, n: nat)
    ensures var call := Generate(document, numQuestions, llm, n);
      && (document == [] ==> call == Call(Failure(ValueError(NoDocumentMessage)), [], 0))
      && (document != [] ==>
            var p := call.events[0].prompt;
            && call.requests == 1
            && call.events == [Request(p), Sleep(Throttle)]
            && p.numQuestions == numQuestions
            && p.document == document[..Min(|document|, PromptLimit)]
            && (llm(n, p).Replied? <==> call.outcome.Success?)
            && (llm(n, p).Replied? ==> ParseOutcome(call.outcome) == Success(Parse(llm(n, p).text)))
            && (llm(n, p).Raised? ==> call.outcome == Failure(llm(n, p).error)))
  {
  }

  /**
   * Only the first 8000 characters of the document reach the model: two
   * documents that agree on that prefix give the same outcome, events and
   * request count.
   */
  lemma GenerateSeesPrefix(d1: string, d2: string, numQuestions: int, llm: Llm, n: nat)
    requires Prefix(d1, PromptLimit) == Prefix(d2, PromptLimit)
    ensures Generate(d1, numQuestions, llm, n) == Generate(d2, numQuestions, llm, n)
  {
  }

  /** `2 ** k`. */
  function Pow2(k: nat): (p: nat)
    ensures p >= 1
  {
    if k == 0 then 1 else 2 * Pow2(k - 1)
  }

  /** The wait before retry number `k`: `min(2 ** k, MAX_RETRY_WAIT)` seconds. */
  function BackoffWait(k: nat): (w: nat)
    ensures 1 <= w <= Config.MaxRetryWait
  {
    Min(Pow2(k), Config.MaxRetryWait)
  }

  /** The waits are 2, 4 and 8 seconds for retries 1 to 3, and the ceiling from the fourth on. */
  lemma {:induction false} BackoffWaits(k: nat)
    ensures BackoffWait(1) == 2 && BackoffWait(2) == 4 && BackoffWait(3) == 8
    ensures k >= 4 ==> BackoffWait(k) == Config.MaxRetryWait
    decreases k
  {
    assert Pow2(1) == 2 && Pow2(2) == 4 && Pow2(3) == 8 && Pow2(4) == 16;
    if k > 4 {
      BackoffWaits(k - 1);
      assert Pow2(k) == 2 * Pow2(k - 1);
    }
  }

  /** The last attempt number of a chunk. */
  const MaxRetries: nat := Config.DefaultChunkRetries

  /**
   * The document text of attempt `j` of a chunk: the chunk on the first
   * attempt; the full document on retries, because the `finally` of the
   * first attempt has restored it and the chunk is installed only once.
   */
  function AttemptDocument(document: string, chunk: string, j: nat): string {
    if j == 0 then chunk else document
  }

  /**
   * The per-chunk result: the reply text of the successful attempt or the
   * chunk's error entry, its events and its request count.
   */
  datatype ChunkRun = ChunkRun(outcome: Result<string, ChunkError>, events: seq<Event>, requests: nat)

  /**
   * The retry loop of chunk number `index`, from attempt `k` (the
   * `retry_count` so far) and request number `n`.
   */
  function Attempts(document: string, chunk: string, index: nat, numQuestions: int, llm: Llm, n: nat, k: nat): ChunkRun
    requires k <= MaxRetries
    decreases MaxRetries - k
  {
    var call := Generate(AttemptDocument(document, chunk, k), numQuestions, llm, n);
    match call.outcome
    case Success(text) => ChunkRun(Success(text), call.events, call.requests)
    case Failure(e) =>
      if k + 1 > MaxRetries then
        ChunkRun(Failure(ChunkError(index, k + 1, e.message)), call.events, call.requests)
      else
        var rest := Attempts(document, chunk, index, numQuestions, llm, n + call.requests, k + 1);
        ChunkRun(rest.outcome, call.events + [Sleep(Backoff(BackoffWait(k + 1)))] + rest.events,
                 call.requests + rest.requests)
  }

  /** The prompt of attempt `j`. */
  function AttemptPrompt(document: string, chunk: string, numQuestions: int, j: nat): Prompt {
    PromptFor(numQuestions, AttemptDocument(document, chunk, j))
  }

  /** The reply to attempt `j` of a chunk whose first attempt was request number `n`. */
  function AttemptReply(document: string, chunk: string, numQuestions: int, llm: Llm, n: nat, j: nat): Reply {
    llm(n + j, AttemptPrompt(document, chunk, numQuestions, j))
  }

  /**
   * The events of `count` attempts from attempt `k`: each attempt is a
   * request followed by the throttle delay, and consecutive attempts are
   * separated by the backoff for the next attempt number; nothing follows
   * the last attempt.
   */
  function AttemptEvents(document: string, chunk: string, numQuestions: int, k: nat, count: nat): seq<Event>
    decreases count
  {
    if count == 0 then []
    else if count == 1 then CallEvents(AttemptPrompt(document, chunk, numQuestions, k))
    else CallEvents(AttemptPrompt(document, chunk, numQuestions, k)) + [Sleep(Backoff(BackoffWait(k + 1)))]
           + AttemptEvents(document, chunk, numQuestions, k + 1, count - 1)
  }

  /**
   * The retry loop of a chunk, for a non-empty chunk and document, from its
   * first attempt: it makes between one and `DEFAULT_CHUNK_RETRIES + 1`
   * attempts; every attempt but the last one failed; the chunk succeeds
   * exactly when the last attempt's reply is an answer, and then yields that
   * reply; otherwise every attempt up to the last allowed one failed and the
   * chunk yields one error entry with the final attempt number and the last
   * failure's message. Its events are those of its attempts.
   */
  lemma AttemptsMeaning(document: string, chunk: string, index: nat, numQuestions: int, llm: Llm, n: nat)
    requires document != [] && chunk != []
    ensures var run := Attempts(document, chunk, index, numQuestions, llm, n, 0);
      var last := run.requests - 1;
      && 1 <= run.requests <= MaxRetries + 1
      && run.events == AttemptEvents(document, chunk, numQuestions, 0, run.requests)
      && (forall j :: 0 <= j < last ==> AttemptReply(document, chunk, numQuestions, llm, n, j).Raised?)
      && (run.outcome.Success? <==> AttemptReply(document, chunk, numQuestions, llm, n, last).Replied?)
      && (run.outcome.Success? ==>
            run.outcome.value == AttemptReply(document, chunk, numQuestions, llm, n, last).text)
      && (run.outcome.Failure? ==>
            && last == MaxRetries
            && run.outcome.error
                 == ChunkError(index, MaxRetries + 1, AttemptReply(document, chunk, numQuestions, llm, n, last).error.message))
  {
    AttemptsEvents(document, chunk, index, numQuestions, llm, n, n, 0);
    AttemptsRaisedBefore(document, chunk, index, numQuestions, llm, n, n, 0);
    AttemptsLastDecides(document, chunk, index, numQuestions, llm, n, n, 0);
  }

  /**
   * From attempt `k`, sent as request number `m == n + k`, the retry loop makes
   * one to `MaxRetries + 1 - k` requests, and its events are those of its
   * attempts.
   */
  lemma {:induction false} AttemptsEvents(document: string, chunk: string, index: nat, numQuestions: int, llm: Llm, n: nat, m: nat, k: nat)
    requires document != [] && chunk != [] && k <= MaxRetries && m == n + k
    ensures var run := Attempts(document, chunk, index, numQuestions, llm, m, k);
      && 1 <= run.requests <= MaxRetries + 1 - k
      && run.events == AttemptEvents(document, chunk, numQuestions, k, run.requests)
    decreases MaxRetries - k
  {
    var call := Generate(AttemptDocument(document, chunk, k), numQuestions, llm, m);
    if call.outcome.Failure? && k + 1 <= MaxRetries {
      AttemptsEvents(document, chunk, index, numQuestions, llm, n, m + 1, k + 1);
    }
  }

  /** From attempt `k`, sent as request number `m == n + k`, every attempt but the last one failed. */
  lemma {:induction false} AttemptsRaisedBefore(document: string, chunk: string, index: nat, numQuestions: int, llm: Llm, n: nat, m: nat, k: nat)
    requires document != [] && chunk != [] && k <= MaxRetries && m == n + k
    ensures var run := Attempts(document, chunk, index, numQuestions, llm, m, k);
      && 1 <= run.requests
      && forall j :: k <= j < k + run.requests - 1 ==> AttemptReply(document, chunk, numQuestions, llm, n, j).Raised?
    decreases MaxRetries - k
  {
    var call := Generate(AttemptDocument(document, chunk, k), numQuestions, llm, m);
    var reply := AttemptReply(document, chunk, numQuestions, llm, n, k);
    assert call.requests == 1 && call.outcome == if reply.Replied? then Success(reply.text) else Failure(reply.error);
    if call.outcome.Failure? && k + 1 <= MaxRetries {
      AttemptsRaisedBefore(document, chunk, index, numQuestions, llm, n, m + 1, k + 1);
      var rest := Attempts(document, chunk, index, numQuestions, llm, m + 1, k + 1);
      var run := Attempts(document, chunk, index, numQuestions, llm, m, k);
      assert run.requests == 1 + rest.requests;
      forall j | k <= j < k + run.requests - 1
        ensures AttemptReply(document, chunk, numQuestions, llm, n, j).Raised?
      {
        if j == k {
          assert reply.Raised?;
        }
      }
    }
  }

  /**
   * From attempt `k`, sent as request number `m == n + k`, the last attempt's
   * reply decides the outcome: its text when it is an answer, otherwise an
   * error entry for the last allowed attempt with that failure's message.
   */
  lemma {:induction false} AttemptsLastDecides(document: string, chunk: string, index: nat, numQuestions: int, llm: Llm, n: nat, m: nat, k: nat)
    requires document != [] && chunk != [] && k <= MaxRetries && m == n + k
    ensures var run := Attempts(document, chunk, index, numQuestions, llm, m, k);
      var reply := AttemptReply(document, chunk, numQuestions, llm, n, k + run.requests - 1);
      && (run.outcome.Success? <==> reply.Replied?)
      && (run.outcome.Success? ==> run.outcome.value == reply.text)
      && (run.outcome.Failure? ==>
            k + run.requests - 1 == MaxRetries && run.outcome.error == ChunkError(index, MaxRetries + 1, reply.error.message))
    decreases MaxRetries - k
  {
    var call := Generate(AttemptDocument(document, chunk, k), numQuestions, llm, m);
    var reply := AttemptReply(document, chunk, numQuestions, llm, n, k);
    assert call.requests == 1 && call.outcome == if reply.Replied? then Success(reply.text) else Failure(reply.error);
    if call.outcome.Failure? && k + 1 <= MaxRetries {
      AttemptsLastDecides(document, chunk, index, numQuestions, llm, n, m + 1, k + 1);
      var rest := Attempts(document, chunk, index, numQuestions, llm, m + 1, k + 1);
      var run := Attempts(document, chunk, index, numQuestions, llm, m, k);
      assert run.outcome == rest.outcome && run.requests == 1 + rest.requests;
    }
  }

  /** A chunk's retry loop, from the first attempt, makes one to `DEFAULT_CHUNK_RETRIES + 1` requests. */
  lemma AttemptsCount(document: string, chunk: string, index: nat, numQuestions: int, llm: Llm, n: nat)
    requires document != [] && chunk != []
    ensures 1 <= Attempts(document, chunk, index, numQuestions, llm, n, 0).requests <= MaxRetries + 1
  {
    AttemptsMeaning(document, chunk, index, numQuestions, llm, n);
  }

  /** A chunk's retry loop, from the first attempt, ends in an error entry only for its final attempt. */
  lemma AttemptsError(document: string, chunk: string, index: nat, numQuestions: int, llm: Llm, n: nat)
    requires document != [] && chunk != []
    ensures var run := Attempts(document, chunk, index, numQuestions, llm, n, 0);
      run.outcome.Failure? ==> run.outcome.error.chunk == index && run.outcome.error.attempt == MaxRetries + 1
  {
    AttemptsMeaning(document, chunk, index, numQuestions, llm, n);
  }

  /** A chunk answered on its first attempt: one request with the chunk's text, no retry, that reply. */
  lemma AnsweredChunk(document: string, chunk: string, index: nat, numQuestions: int, llm: Llm, n: nat, text: string)
    requires chunk != []
    requires llm(n, PromptFor(numQuestions, chunk)) == Replied(text)
    ensures Attempts(document, chunk, index, numQuestions, llm, n, 0)
              == ChunkRun(Success(text), CallEvents(PromptFor(numQuestions, chunk)), 1)
  {
  }

  /**
   * A chunk whose every attempt fails, from the first attempt: three
   * requests, the first with the chunk and the two retries with the first
   * 8000 characters of the full document, each followed by the throttle
   * delay, with backoffs of 2 and 4 seconds between them and none after the
   * last; and the error entry of the third attempt.
   */
  lemma ExhaustedChunk(document: string, chunk: string, index: nat, numQuestions: int, llm: Llm, n: nat)
    requires document != [] && chunk != []
    requires forall j :: 0 <= j <= MaxRetries ==> AttemptReply(document, chunk, numQuestions, llm, n, j).Raised?
    ensures var run := Attempts(document, chunk, index, numQuestions, llm, n, 0);
      var pc := PromptFor(numQuestions, chunk);
      var pd := PromptFor(numQuestions, document);
      && run.requests == 3
      && run.events == [Request(pc), Sleep(Throttle), Sleep(Backoff(2)),
                        Request(pd), Sleep(Throttle), Sleep(Backoff(4)),
                        Request(pd), Sleep(Throttle)]
      && run.outcome == Failure(ChunkError(index, 3, AttemptReply(document, chunk, numQuestions, llm, n, 2).error.message))
  {
    AttemptsMeaning(document, chunk, index, numQuestions, llm, n);
    BackoffWaits(0);
    var run := Attempts(document, chunk, index, numQuestions, llm, n, 0);
    assert run.requests == 3;
  }

  /**
   * The runs of the chunk loop over `chunks` from position `done` (so from
   * chunk number `done + 1`) and request number `n`: each chunk runs its
   * retry loop in turn, whatever became of the chunks before it.
   */
  function Runs(document: string, chunks: seq<string>, numQuestions: int, llm: Llm, n: nat, done: nat): (runs: seq<ChunkRun>)
    requires done <= |chunks|
    ensures |runs| == |chunks| - done
    decreases |chunks| - done
  {
    if done == |chunks| then []
    else
      var run := Attempts(document, chunks[done], done + 1, numQuestions, llm, n, 0);
      [run] + Runs(document, chunks, numQuestions, llm, n + run.requests, done + 1)
  }

  /** The reply texts of the runs that succeeded, in chunk order. */
  function Replies(runs: seq<ChunkRun>): seq<string>
    decreases |runs|
  {
    if runs == [] then []
    else (if runs[0].outcome.Success? then [runs[0].outcome.value] else []) + Replies(runs[1..])
  }

  /** The records of the runs that succeeded, in chunk order. */
  function Pairs(runs: seq<ChunkRun>): seq<QAPair> {
    ParseAll(Replies(runs))
  }

  /** The error entries of the runs that exhausted their retries, in chunk order. */
  function Errors(runs: seq<ChunkRun>): seq<ChunkError>
    decreases |runs|
  {
    if runs == [] then []
    else (if runs[0].outcome.Failure? then [runs[0].outcome.error] else []) + Errors(runs[1..])
  }

  /** The events of the runs, in order. */
  function Events(runs: seq<ChunkRun>): seq<Event>
    decreases |runs|
  {
    if runs == [] then [] else runs[0].events + Events(runs[1..])
  }

  /** The requests of the runs, in total. */
  function Requests(runs: seq<ChunkRun>): nat
    decreases |runs|
  {
    if runs == [] then 0 else runs[0].requests + Requests(runs[1..])
  }

  /** The first chunk runs its retry loop; the rest start at the next request number. */
  lemma RunsCons(document: string, chunks: seq<string>, numQuestions: int, llm: Llm, n: nat, done: nat)
    requires done < |chunks|
    ensures var run := Attempts(document, chunks[done], done + 1, numQuestions, llm, n, 0);
      Runs(document, chunks, numQuestions, llm, n, done)
        == [run] + Runs(document, chunks, numQuestions, llm, n + run.requests, done + 1)
  {
  }

  /* The component functions over a run followed by further runs, one lemma each. */

  lemma RepliesCons(run: ChunkRun, rest: seq<ChunkRun>)
    ensures Replies([run] + rest) == (if run.outcome.Success? then [run.outcome.value] else []) + Replies(rest)
  {
    assert ([run] + rest)[1..] == rest;
  }

  /** The records of a run followed by further runs: those of its reply, if it succeeded, then the rest. */
  lemma PairsCons(run: ChunkRun, rest: seq<ChunkRun>)
    ensures Pairs([run] + rest) == (if run.outcome.Success? then Parse(run.outcome.value) else []) + Pairs(rest)
  {
    RepliesCons(run, rest);
    var head := if run.outcome.Success? then [run.outcome.value] else [];
    ParseAllAppend(head, Replies(rest));
  }

  lemma ErrorsCons(run: ChunkRun, rest: seq<ChunkRun>)
    ensures Errors([run] + rest) == (if run.outcome.Failure? then [run.outcome.error] else []) + Errors(rest)
  {
    assert ([run] + rest)[1..] == rest;
  }

  lemma EventsCons(run: ChunkRun, rest: seq<ChunkRun>)
    ensures Events([run] + rest) == run.events + Events(rest)
  {
    assert ([run] + rest)[1..] == rest;
  }

  lemma RequestsCons(run: ChunkRun, rest: seq<ChunkRun>)
    ensures Requests([run] + rest) == run.requests + Requests(rest)
  {
    assert ([run] + rest)[1..] == rest;
  }

  /** Every run made one to `DEFAULT_CHUNK_RETRIES + 1` requests. */
  predicate RequestsEach(runs: seq<ChunkRun>) {
    forall i :: 0 <= i < |runs| ==> 1 <= runs[i].requests <= MaxRetries + 1
  }

  lemma {:induction false} RunsRequestsEach(document: string, chunks: seq<string>, numQuestions: int, llm: Llm, n: nat, done: nat)
    requires document != [] && done <= |chunks|
    requires forall i :: 0 <= i < |chunks| ==> chunks[i] != []
    ensures RequestsEach(Runs(document, chunks, numQuestions, llm, n, done))
    decreases |chunks| - done
  {
    if done < |chunks| {
      var run := Attempts(document, chunks[done], done + 1, numQuestions, llm, n, 0);
      AttemptsCount(document, chunks[done], done + 1, numQuestions, llm, n);
      var rest := Runs(document, chunks, numQuestions, llm, n + run.requests, done + 1);
      RunsRequestsEach(document, chunks, numQuestions, llm, n + run.requests, done + 1);
      RunsCons(document, chunks, numQuestions, llm, n, done);
      RequestsEachCons(run, rest);
    }
  }

  lemma RequestsEachCons(run: ChunkRun, rest: seq<ChunkRun>)
    requires 1 <= run.requests <= MaxRetries + 1 && RequestsEach(rest)
    ensures RequestsEach([run] + rest)
  {
    var runs := [run] + rest;
    forall i | 0 <= i < |runs|
      ensures 1 <= runs[i].requests <= MaxRetries + 1
    {
      if i > 0 {
        assert runs[i] == rest[i - 1];
      }
    }
  }

  /** Runs of one to three requests each make between one and three requests per run in total. */
  lemma {:induction false} RequestsBetween(runs: seq<ChunkRun>)
    requires RequestsEach(runs)
    ensures |runs| <= Requests(runs) <= 3 * |runs|
    decreases |runs|
  {
    if runs != [] {
      assert RequestsEach(runs[1..]) by {
        forall i | 0 <= i < |runs[1..]|
          ensures 1 <= runs[1..][i].requests <= MaxRetries + 1
        {
          assert runs[1..][i] == runs[i + 1];
        }
      }
      RequestsBetween(runs[1..]);
    }
  }

  /** Over non-empty chunks of a non-empty document, each chunk makes one to three requests. */
  lemma RunsRequests(document: string, chunks: seq<string>, numQuestions: int, llm: Llm, n: nat, done: nat)
    requires document != [] && done <= |chunks|
    requires forall i :: 0 <= i < |chunks| ==> chunks[i] != []
    ensures var runs := Runs(document, chunks, numQuestions, llm, n, done);
      |chunks| - done <= Requests(runs) <= 3 * (|chunks| - done)
  {
    RunsRequestsEach(document, chunks, numQuestions, llm, n, done);
    RequestsBetween(Runs(document, chunks, numQuestions, llm, n, done));
  }

  /** Error entries in strictly increasing chunk order. */
  ghost predicate Increasing(errors: seq<ChunkError>) {
    forall i, j :: 0 <= i < j < |errors| ==> errors[i].chunk < errors[j].chunk
  }

  /** Error entries whose chunk numbers lie in `lo < chunk <= hi` and that are all for the final attempt. */
  predicate Within(errors: seq<ChunkError>, lo: nat, hi: nat) {
    forall e :: e in errors ==> lo < e.chunk <= hi && e.attempt == MaxRetries + 1
  }

  lemma IncreasingCons(head: seq<ChunkError>, tail: seq<ChunkError>, lo: nat, hi: nat)
    requires lo < hi && |head| <= 1 && Within(head, lo, lo + 1)
    requires Increasing(tail) && Within(tail, lo + 1, hi)
    ensures Increasing(head + tail) && Within(head + tail, lo, hi)
  {
    var errs := head + tail;
    forall i, j | 0 <= i < j < |errs|
      ensures errs[i].chunk < errs[j].chunk
    {
      if |head| == 1 {
        assert errs[j] == tail[j - 1] && tail[j - 1] in tail;
        if i > 0 {
          assert errs[i] == tail[i - 1];
        }
      } else {
        assert errs[i] == tail[i] && errs[j] == tail[j];
      }
    }
  }

  /** The run at position `i` failed, if at all, as chunk number `done + 1 + i` on its final attempt. */
  predicate ErrorsAt(runs: seq<ChunkRun>, done: nat) {
    forall i :: 0 <= i < |runs| && runs[i].outcome.Failure? ==>
      runs[i].outcome.error.chunk == done + 1 + i && runs[i].outcome.error.attempt == MaxRetries + 1
  }

  lemma {:induction false} RunsErrorsAt(document: string, chunks: seq<string>, numQuestions: int, llm: Llm, n: nat, done: nat)
    requires document != [] && done <= |chunks|
    requires forall i :: 0 <= i < |chunks| ==> chunks[i] != []
    ensures ErrorsAt(Runs(document, chunks, numQuestions, llm, n, done), done)
    decreases |chunks| - done
  {
    if done < |chunks| {
      var run := Attempts(document, chunks[done], done + 1, numQuestions, llm, n, 0);
      AttemptsError(document, chunks[done], done + 1, numQuestions, llm, n);
      var rest := Runs(document, chunks, numQuestions, llm, n + run.requests, done + 1);
      RunsErrorsAt(document, chunks, numQuestions, llm, n + run.requests, done + 1);
      RunsCons(document, chunks, numQuestions, llm, n, done);
      var runs := [run] + rest;
      forall i | 0 <= i < |runs| && runs[i].outcome.Failure?
        ensures runs[i].outcome.error.chunk == done + 1 + i && runs[i].outcome.error.attempt == MaxRetries + 1
      {
        if i > 0 {
          assert runs[i] == rest[i - 1];
        }
      }
    }
  }

  /** The error entries of such runs: at most one per run, in increasing chunk order, for the final attempt. */
  lemma {:induction false} OrderedErrors(runs: seq<ChunkRun>, done: nat)
    requires ErrorsAt(runs, done)
    ensures var errors := Errors(runs);
      && |errors| <= |runs|
      && Within(errors, done, done + |runs|)
      && Increasing(errors)
    decreases |runs|
  {
    if runs != [] {
      var rest := runs[1..];
      assert ErrorsAt(rest, done + 1) by {
        forall i | 0 <= i < |rest| && rest[i].outcome.Failure?
          ensures rest[i].outcome.error.chunk == done + 2 + i && rest[i].outcome.error.attempt == MaxRetries + 1
        {
          assert rest[i] == runs[i + 1];
        }
      }
      OrderedErrors(rest, done + 1);
      var head := if runs[0].outcome.Failure? then [runs[0].outcome.error] else [];
      IncreasingCons(head, Errors(rest), done, done + |runs|);
    }
  }

  /**
   * Over non-empty chunks of a non-empty document, there is at most one
   * error entry per chunk, every entry is for the final attempt, and the
   * entries carry strictly increasing chunk numbers within
   * `done + 1 .. |chunks|`.
   */
  lemma RunsErrors(document: string, chunks: seq<string>, numQuestions: int, llm: Llm, n: nat, done: nat)
    requires document != [] && done <= |chunks|
    requires forall i :: 0 <= i < |chunks| ==> chunks[i] != []
    ensures var errors := Errors(Runs(document, chunks, numQuestions, llm, n, done));
      && |errors| <= |chunks| - done
      && Within(errors, done, |chunks|)
      && Increasing(errors)
  {
    RunsErrorsAt(document, chunks, numQuestions, llm, n, done);
    OrderedErrors(Runs(document, chunks, numQuestions, llm, n, done), done);
  }

  /** With a model that always answers, run `i` is chunk `done + i` answered on its first request. */
  lemma {:induction false} RunsAnswered(document: string, chunks: seq<string>, numQuestions: int, llm: Llm, n: nat, done: nat)
    requires done <= |chunks|
    requires forall i :: 0 <= i < |chunks| ==> chunks[i] != []
    requires forall i: nat, p: Prompt :: llm(i, p).Replied?
    ensures forall i :: 0 <= i < |chunks| - done ==>
      Runs(document, chunks, numQuestions, llm, n, done)[i]
        == ChunkRun(Success(llm(n + i, PromptFor(numQuestions, chunks[done + i])).text),
                    CallEvents(PromptFor(numQuestions, chunks[done + i])), 1)
    decreases |chunks| - done
  {
    if done < |chunks| {
      var text := llm(n, PromptFor(numQuestions, chunks[done])).text;
      AnsweredChunk(document, chunks[done], done + 1, numQuestions, llm, n, text);
      var run := Attempts(document, chunks[done], done + 1, numQuestions, llm, n, 0);
      var rest := Runs(document, chunks, numQuestions, llm, n + 1, done + 1);
      RunsAnswered(document, chunks, numQuestions, llm, n + 1, done + 1);
      RunsCons(document, chunks, numQuestions, llm, n, done);
      var runs := [run] + rest;
      forall i | 0 <= i < |runs|
        ensures runs[i] == ChunkRun(Success(llm(n + i, PromptFor(numQuestions, chunks[done + i])).text),
                                    CallEvents(PromptFor(numQuestions, chunks[done + i])), 1)
      {
        if i > 0 {
          assert runs[i] == rest[i - 1];
          assert done + 1 + (i - 1) == done + i;
        }
      }
    }
  }

  /** Runs that all succeeded on one request: no error entry, one request each, and their replies in order. */
  lemma {:induction false} FirstTryRuns(runs: seq<ChunkRun>)
    requires forall i :: 0 <= i < |runs| ==> runs[i].outcome.Success? && runs[i].requests == 1
    ensures Errors(runs) == []
    ensures Requests(runs) == |runs|
    ensures Replies(runs) == seq(|runs|, i requires 0 <= i < |runs| => runs[i].outcome.value)
    decreases |runs|
  {
    if runs != [] {
      var rest := runs[1..];
      assert forall i :: 0 <= i < |rest| ==> rest[i] == runs[i + 1];
      FirstTryRuns(rest);
      var xs := seq(|runs|, i requires 0 <= i < |runs| => runs[i].outcome.value);
      var ys := seq(|rest|, i requires 0 <= i < |rest| => rest[i].outcome.value);
      assert xs == [runs[0].outcome.value] + ys;
    }
  }

  /**
   * When the model answers every request, each chunk takes one request with
   * its own text in the prompt, no error is recorded, and the replies whose
   * records make up the result are those of the chunks, in chunk order.
   */
  lemma AllAnswered(document: string, chunks: seq<string>, numQuestions: int, llm: Llm, n: nat)
    requires forall i :: 0 <= i < |chunks| ==> chunks[i] != []
    requires forall i: nat, p: Prompt :: llm(i, p).Replied?
    ensures var runs := Runs(document, chunks, numQuestions, llm, n, 0);
      && Errors(runs) == []
      && Requests(runs) == |chunks|
      && Replies(runs) == seq(|chunks|, i requires 0 <= i < |chunks| =>
                                llm(n + i, PromptFor(numQuestions, chunks[i])).text)
  {
    var runs := Runs(document, chunks, numQuestions, llm, n, 0);
    RunsAnswered(document, chunks, numQuestions, llm, n, 0);
    forall i | 0 <= i < |runs|
      ensures runs[i].outcome == Success(llm(n + i, PromptFor(numQuestions, chunks[i])).text)
      ensures runs[i].requests == 1
    {
      assert runs[i] == ChunkRun(Success(llm(n + i, PromptFor(numQuestions, chunks[0 + i])).text),
                                 CallEvents(PromptFor(numQuestions, chunks[0 + i])), 1);
    }
    FirstTryRuns(runs);
    var xs := seq(|chunks|, i requires 0 <= i < |chunks| => llm(n + i, PromptFor(numQuestions, chunks[i])).text);
    var ys := seq(|runs|, i requires 0 <= i < |runs| => runs[i].outcome.value);
    assert forall i :: 0 <= i < |xs| ==> xs[i] == ys[i];
    assert xs == ys;
  }

  /**
   * Three chunks where every request about the second chunk fails and the
   * others are answered: the result holds the records of the replies to the
   * first and third chunks, in that order, and one error entry for chunk 2, attempt 3, with
   * the last failure's message. The third chunk is still processed.
   */
  lemma MiddleChunkFails(document: string, c1: string, c2: string, c3: string, numQuestions: int,
                         llm: Llm, x1: string, x3: string, msg: string)
    requires document != [] && c1 != [] && c2 != [] && c3 != []
    requires llm(0, PromptFor(numQuestions, c1)) == Replied(x1)
    requires forall i: nat, p: Prompt :: 1 <= i <= 3 ==> llm(i, p) == Raised(OtherError(msg))
    requires llm(4, PromptFor(numQuestions, c3)) == Replied(x3)
    ensures var runs := Runs(document, [c1, c2, c3], numQuestions, llm, 0, 0);
      && Replies(runs) == [x1, x3]
      && Errors(runs) == [ChunkError(2, 3, msg)]
      && Requests(runs) == 5
  {
    var chunks := [c1, c2, c3];
    var r1 := Attempts(document, c1, 1, numQuestions, llm, 0, 0);
    AnsweredChunk(document, c1, 1, numQuestions, llm, 0, x1);
    var r2 := Attempts(document, c2, 2, numQuestions, llm, 1, 0);
    assert r2.requests == 3 && r2.outcome == Failure(ChunkError(2, 3, msg)) by {
      assert forall j :: 0 <= j <= MaxRetries ==> AttemptReply(document, c2, numQuestions, llm, 1, j).Raised?;
      ExhaustedChunk(document, c2, 2, numQuestions, llm, 1);
    }
    var r3 := Attempts(document, c3, 3, numQuestions, llm, 4, 0);
    AnsweredChunk(document, c3, 3, numQuestions, llm, 4, x3);
    var none := Runs(document, chunks, numQuestions, llm, 5, 3);
    var runs := Runs(document, chunks, numQuestions, llm, 0, 0);
    assert runs == [r1] + ([r2] + ([r3] + none)) by {
      RunsCons(document, chunks, numQuestions, llm, 0, 0);
      RunsCons(document, chunks, numQuestions, llm, 1, 1);
      RunsCons(document, chunks, numQuestions, llm, 4, 2);
    }
    assert Replies(runs) == [x1, x3] by {
      RepliesCons(r3, none);
      RepliesCons(r2, [r3] + none);
      RepliesCons(r1, [r2] + ([r3] + none));
    }
    assert Errors(runs) == [ChunkError(2, 3, msg)] by {
      ErrorsCons(r3, none);
      ErrorsCons(r2, [r3] + none);
      ErrorsCons(r1, [r2] + ([r3] + none));
    }
    assert Requests(runs) == 5 by {
      RequestsCons(r3, none);
      RequestsCons(r2, [r3] + none);
      RequestsCons(r1, [r2] + ([r3] + none));
    }
  }
}
