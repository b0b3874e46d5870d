/**
 * The `SimpleRAG` object of the core module: its document text, which the
 * chunked generator swaps in and out, and the loops of the chunker, the
 * line parser and the chunked generator with its per-chunk retry.
 *
 * Each method is proved against the specification functions of the
 * `Chunking`, `QaParsing` and `Generation` modules. Besides the document
 * text the object keeps the number of requests sent so far (the index the
 * language-model oracle is asked with) and, as ghost state, the log of the
 * requests and sleeps it has made.
 */
module RagCore {
  import opened Text
  import opened Results
  import opened Chunking
  import opened QaParsing
  import opened Generation
  import Config

  /**
   * One line of the parser's loop: after marker `ms[i]` the records emitted
   * so far, followed by the scan of the remaining markers from the new
   * slots, are still the records of the whole scan.
   */
  lemma LineStep(ms: seq<Marker>, i: nat, q: string, a: string, pairs: seq<QAPair>,
                 q': string, a': string, pairs': seq<QAPair>, total: seq<QAPair>)
    requires i < |ms| && pairs + Scan(ms[i..], q, a) == total
    requires match ms[i]
      case Question(f) => pairs' == (if q != [] && a != [] then pairs + [QAPair(q, a)] else pairs) && q' == f && a' == []
      case Answer(f) => pairs' == pairs && q' == q && a' == f
      case Other => pairs' == pairs && q' == q && a' == a
    ensures pairs' + Scan(ms[i + 1..], q', a') == total
  {
    ScanStep(ms, i, q, a);
    if ms[i].Question? {
      ConcatAssoc(pairs, Emit(q, a), Scan(ms[i + 1..], q', a'));
      if q == [] || a == [] {
        assert Emit(q, a) == [];
      }
    }
  }

  /**
   * One turn of the chunker's loop on the window `[start, end)`: its chunk,
   * if any, joins those emitted so far. After a window that reaches the end
   * of the text the loop has emitted all its chunks (`LastCursorStep`);
   * otherwise it goes on from the next cursor with the budget that is left
   * (`CursorStep`).
   */
  lemma LastCursorStep(text: string, maxChars: nat, overlap: int, maxChunks: int, start: nat, end: nat,
                       chunk: string, before: seq<string>, chunks: seq<string>, total: seq<string>)
    requires start < |text| && |before| < maxChunks
    requires before + Texts(text, Trace(text, maxChars, overlap, maxChunks - |before|, start)) == total
    requires end == WindowEnd(text, maxChars, start) && end >= |text|
    requires chunk == ChunkOf(text, Window(start, end))
    requires chunks == if |chunk| > 0 then before + [chunk] else before
    ensures chunks == total
  {
    var w := Window(start, end);
    assert Trace(text, maxChars, overlap, maxChunks - |before|, start) == [w] + [];
    TextsCons(text, w, []);
  }

  lemma CursorStep(text: string, maxChars: nat, overlap: int, maxChunks: int, start: nat, end: nat,
                   chunk: string, before: seq<string>, chunks: seq<string>, total: seq<string>)
    requires start < |text| && |before| < maxChunks
    requires before + Texts(text, Trace(text, maxChars, overlap, maxChunks - |before|, start)) == total
    requires end == WindowEnd(text, maxChars, start) && end < |text|
    requires chunk == ChunkOf(text, Window(start, end))
    requires chunks == if |chunk| > 0 then before + [chunk] else before
    ensures chunks + Texts(text, Trace(text, maxChars, overlap, maxChunks - |chunks|, Max(end - overlap, start + 1))) == total
  {
    var budget := maxChunks - |before|;
    var w := Window(start, end);
    var emitted := if chunk == [] then [] else [chunk];
    assert chunks == before + emitted;
    TraceStep(text, maxChars, overlap, budget, start);
    assert Spend(text, w, budget) == maxChunks - |chunks|;
    assert NextStart(w, overlap) == Max(end - overlap, start + 1);
    var rest := Trace(text, maxChars, overlap, maxChunks - |chunks|, Max(end - overlap, start + 1));
    assert Trace(text, maxChars, overlap, budget, start) == [w] + rest;
    TextsCons(text, w, rest);
    assert before + (emitted + Texts(text, rest)) == total;
    ConcatAssoc(before, emitted, Texts(text, rest));
  }

  /*
   * One turn of the chunk loop, one lemma per accumulator: with the run of
   * the current chunk behind it, what was gathered so far followed by what
   * the remaining runs give is still what all runs give.
   */

  lemma PairsStep(run: ChunkRun, rest: seq<ChunkRun>, allQa: seq<QAPair>, allQa': seq<QAPair>, total: seq<QAPair>)
    requires allQa + Pairs([run] + rest) == total
    requires allQa' == if run.outcome.Success? then allQa + Parse(run.outcome.value) else allQa
    ensures allQa' + Pairs(rest) == total
  {
    PairsCons(run, rest);
    var qa := if run.outcome.Success? then Parse(run.outcome.value) else [];
    ConcatAssoc(allQa, qa, Pairs(rest));
    assert allQa' == allQa + qa;
  }

  lemma ErrorsStep(run: ChunkRun, rest: seq<ChunkRun>, errors: seq<ChunkError>, errors': seq<ChunkError>, total: seq<ChunkError>)
    requires errors + Errors([run] + rest) == total
    requires errors' == if run.outcome.Failure? then errors + [run.outcome.error] else errors
    ensures errors' + Errors(rest) == total
  {
    ErrorsCons(run, rest);
    var err := if run.outcome.Failure? then [run.outcome.error] else [];
    ConcatAssoc(errors, err, Errors(rest));
    assert errors' == errors + err;
  }

  lemma EventsStep(run: ChunkRun, rest: seq<ChunkRun>, events: seq<Event>, total: seq<Event>)
    requires events + Events([run] + rest) == total
    ensures (events + run.events) + Events(rest) == total
  {
    EventsCons(run, rest);
    ConcatAssoc(events, run.events, Events(rest));
  }

  lemma RequestsStep(run: ChunkRun, rest: seq<ChunkRun>, requests: nat, total: nat)
    requires requests + Requests([run] + rest) == total
    ensures (requests + run.requests) + Requests(rest) == total
  {
    RequestsCons(run, rest);
  }

  /** The runs from chunk `i` are the run of chunk `i` and then those from the request after it. */
  lemma RunsAfter(document: string, chunks: seq<string>, numQuestions: int, llm: Llm, n: nat, n': nat, i: nat,
                  run: ChunkRun, rest: seq<ChunkRun>)
    requires i < |chunks|
    requires run == Attempts(document, chunks[i], i + 1, numQuestions, llm, n, 0)
    requires n' == n + run.requests
    requires rest == Runs(document, chunks, numQuestions, llm, n', i + 1)
    ensures Runs(document, chunks, numQuestions, llm, n, i) == [run] + rest
  {
    RunsCons(document, chunks, numQuestions, llm, n, i);
  }

  /**
   * One turn of the chunk loop over `chunks[i]`, whose retry loop started at
   * request number `n`: the accumulators plus the runs of the chunks from
   * `i` add up to the same totals as the accumulators updated with the
   * chunk's outcome plus the runs of the chunks from `i + 1`.
   */
  lemma CollectStep(document: string, chunks: seq<string>, i: nat, numQuestions: int, llm: Llm,
                    n: nat, n': nat, events: seq<Event>, events': seq<Event>,
                    outcome: Result<seq<QAPair>, ChunkError>,
                    allQa: seq<QAPair>, allQa': seq<QAPair>, errors: seq<ChunkError>, errors': seq<ChunkError>,
                    qaTotal: seq<QAPair>, errorsTotal: seq<ChunkError>, eventsTotal: seq<Event>, requestsTotal: nat)
    requires i < |chunks|
    requires allQa + Pairs(Runs(document, chunks, numQuestions, llm, n, i)) == qaTotal
    requires errors + Errors(Runs(document, chunks, numQuestions, llm, n, i)) == errorsTotal
    requires events + Events(Runs(document, chunks, numQuestions, llm, n, i)) == eventsTotal
    requires n + Requests(Runs(document, chunks, numQuestions, llm, n, i)) == requestsTotal
    requires outcome == ParseOutcome(Attempts(document, chunks[i], i + 1, numQuestions, llm, n, 0).outcome)
    requires n' == n + Attempts(document, chunks[i], i + 1, numQuestions, llm, n, 0).requests
    requires events' == events + Attempts(document, chunks[i], i + 1, numQuestions, llm, n, 0).events
    requires allQa' == if outcome.Success? then allQa + outcome.value else allQa
    requires errors' == if outcome.Failure? then errors + [outcome.error] else errors
    ensures allQa' + Pairs(Runs(document, chunks, numQuestions, llm, n', i + 1)) == qaTotal
    ensures errors' + Errors(Runs(document, chunks, numQuestions, llm, n', i + 1)) == errorsTotal
    ensures events' + Events(Runs(document, chunks, numQuestions, llm, n', i + 1)) == eventsTotal
    ensures n' + Requests(Runs(document, chunks, numQuestions, llm, n', i + 1)) == requestsTotal
  {
    var run := Attempts(document, chunks[i], i + 1, numQuestions, llm, n, 0);
    var rest := Runs(document, chunks, numQuestions, llm, n', i + 1);
    RunsAfter(document, chunks, numQuestions, llm, n, n', i, run, rest);
    PairsStep(run, rest, allQa, allQa', qaTotal);
    ErrorsStep(run, rest, errors, errors', errorsTotal);
    EventsStep(run, rest, events, eventsTotal);
    RequestsStep(run, rest, n, requestsTotal);
  }

  /**
   * One attempt of a chunk's retry loop: the attempt, then either the end
   * of the loop or the backoff and the attempts after it.
   */
  lemma AttemptStep(document: string, chunk: string, index: nat, numQuestions: int, llm: Llm, n: nat, k: nat,
                    call: Call, run: ChunkRun, n': nat, k': nat)
    requires k <= MaxRetries
    requires call == Generate(AttemptDocument(document, chunk, k), numQuestions, llm, n)
    requires run == Attempts(document, chunk, index, numQuestions, llm, n, k)
    requires n' == n + call.requests && k' == k + 1
    ensures call.outcome.Success? ==> run == ChunkRun(Success(call.outcome.value), call.events, call.requests)
    ensures call.outcome.Failure? && k' > MaxRetries ==>
      run == ChunkRun(Failure(ChunkError(index, k', call.outcome.error.message)), call.events, call.requests)
    ensures call.outcome.Failure? && k' <= MaxRetries ==>
      && run.outcome == Attempts(document, chunk, index, numQuestions, llm, n', k').outcome
      && run.events == call.events + [Sleep(Backoff(BackoffWait(k')))]
                         + Attempts(document, chunk, index, numQuestions, llm, n', k').events
      && run.requests == call.requests + Attempts(document, chunk, index, numQuestions, llm, n', k').requests
  {
    if call.outcome.Failure? && k' <= MaxRetries {
      var next := Attempts(document, chunk, index, numQuestions, llm, n + call.requests, k + 1);
      assert run == ChunkRun(next.outcome, call.events + [Sleep(Backoff(BackoffWait(k + 1)))] + next.events,
                             call.requests + next.requests);
      assert next == Attempts(document, chunk, index, numQuestions, llm, n', k');
    }
  }

  /**
   * A run seen from the start of a session: the events and requests that
   * came before it, then its own.
   */
  function Continued(events: seq<Event>, requests: nat, run: ChunkRun): ChunkRun {
    ChunkRun(run.outcome, events + run.events, requests + run.requests)
  }

  /**
   * A failed attempt that is not the last: the rest of the retry loop
   * follows the attempt's events, its backoff and its request.
   */
  lemma RetryStep(total: ChunkRun, run: ChunkRun, callEvents: seq<Event>, callRequests: nat, rest: ChunkRun,
                  events: seq<Event>, requests: nat, wait: nat, events': seq<Event>, requests': nat)
    requires total == Continued(events, requests, run)
    requires run.outcome == rest.outcome && run.requests == callRequests + rest.requests
    requires run.events == callEvents + [Sleep(Backoff(wait))] + rest.events
    requires events' == events + callEvents + [Sleep(Backoff(wait))] && requests' == requests + callRequests
    ensures total == Continued(events', requests', rest)
  {
  }

  /** The last attempt of a retry loop: nothing follows it. */
  lemma LastStep(total: ChunkRun, run: ChunkRun, events: seq<Event>, requests: nat)
    requires total == Continued(events, requests, run)
    ensures total == ChunkRun(run.outcome, events + run.events, requests + run.requests)
  {
  }

  /**
   * The chunk runs of a chunked session over `document`: one retry loop per
   * chunk `Chunks` cuts, the first starting at request number `n`.
   */
  function SessionRuns(document: string, chunkSize: nat, overlap: int, numQuestions: int, llm: Llm, n: nat): seq<ChunkRun> {
    Runs(document, Chunks(document, chunkSize, overlap, Config.DefaultMaxChunks), numQuestions, llm, n, 0)
  }

  class SimpleRag {
    /** `self.document_text`. */
    var documentText: string
    /** Requests sent to the language model so far. */
    var requests: nat
    /** Requests and sleeps so far, in order. */
    ghost var events: seq<Event>

    /** A fresh object holds no document and has sent no request. */
    constructor ()
      ensures documentText == [] && requests == 0 && events == []
    {
      documentText := [];
      requests := 0;
      events := [];
    }

    /** The final step of `extract_text_from_pdf`: the extracted text becomes the document. */
    method SetDocument(text: string)
      modifies this`documentText
      ensures documentText == text
    {
      documentText := text;
    }

    /**
     * `chunk_text(text, maxChars, overlap, maxChunks)`: the cursor loop. It
     * returns the chunks of the windows `Trace` visits, whose bounds,
     * coverage and count `ChunkingCoversText` and `Chunks` state.
     */
    method ChunkText(text: string, maxChars: nat, overlap: int, maxChunks: int) returns (chunks: seq<string>)
      ensures chunks == Chunks(text, maxChars, overlap, maxChunks)
    {
      chunks := [];
      var start: nat := 0;
      ghost var total := Texts(text, Trace(text, maxChars, overlap, maxChunks, 0));
      ghost var done := false;
      assert chunks + Texts(text, Trace(text, maxChars, overlap, maxChunks - |chunks|, start)) == total by {
        assert maxChunks - |chunks| == maxChunks;
      }
      while start < |text| && |chunks| < maxChunks
        invariant chunks + Texts(text, Trace(text, maxChars, overlap, maxChunks - |chunks|, start)) == total
        invariant !done
        decreases |text| - start
      {
        var end := WindowEnd(text, maxChars, start);
        ghost var before := chunks;
        var chunk := Strip(text[start..end]);
        if |chunk| > 0 {
          chunks := chunks + [chunk];
        }
        if end >= |text| {
          LastCursorStep(text, maxChars, overlap, maxChunks, start, end, chunk, before, chunks, total);
          done := true;
          break;
        }
        CursorStep(text, maxChars, overlap, maxChunks, start, end, chunk, before, chunks, total);
        var next := Max(end - overlap, start + 1);
        start := next;
      }
      if !done {
        assert Trace(text, maxChars, overlap, maxChunks - |chunks|, start) == [];
        assert chunks + [] == chunks;
      }
    }

    /**
     * `_parse_qa_pairs(qaText)`: the line scan with the two slots. It
     * returns the parser's specification `Parse`, which `ScanIsRecords`
     * relates to the block-wise description of the records.
     */
    method ParseQaPairs(qaText: string) returns (pairs: seq<QAPair>)
      ensures pairs == Parse(qaText)
      ensures forall k :: 0 <= k < |pairs| ==> pairs[k].question != [] && pairs[k].answer != []
    {
      var lines := Split(Strip(qaText), '\n');
      ghost var ms := Classified(lines);
      pairs := [];
      var q: string := [];
      var a: string := [];
      for i := 0 to |lines|
        invariant pairs + Scan(ms[i..], q, a) == Scan(ms, [], [])
      {
        ghost var before, q0, a0 := pairs, q, a;
        match Classify(lines[i]) {
          case Question(field) =>
            if q != [] && a != [] {
              pairs := pairs + [QAPair(q, a)];
            }
            q := field;
            a := [];
          case Answer(field) =>
            a := field;
          case Other =>
        }
        LineStep(ms, i, q0, a0, before, q, a, pairs, Scan(ms, [], []));
      }
      assert ms[|lines|..] == [];
      if q != [] && a != [] {
        pairs := pairs + [QAPair(q, a)];
      }
      ParseShape(qaText);
    }

    /**
     * `generate_qa_pairs(numQuestions)`: without a document it raises
     * `ValueError` and sends nothing; otherwise it sends one request whose
     * prompt embeds the first 8000 characters of the document, parses the
     * reply or passes the exception on, and sleeps the throttle delay in its
     * `finally`. `GenerateMeaning` states what `Generate` is.
     */
    method GenerateQaPairs(numQuestions: int, llm: Llm) returns (result: Result<seq<QAPair>, Exception>)
      modifies this`requests, this`events
      ensures result == ParseOutcome(Generate(documentText, numQuestions, llm, old(requests)).outcome)
      ensures requests == old(requests) + Generate(documentText, numQuestions, llm, old(requests)).requests
      ensures events == old(events) + Generate(documentText, numQuestions, llm, old(requests)).events
    {
      if documentText == [] {
        return Failure(ValueError(NoDocumentMessage));
      }
      var prompt := PromptFor(numQuestions, documentText);
      var reply := llm(requests, prompt);
      requests := requests + 1;
      events := events + [Request(prompt)];
      match reply {
        case Replied(qaText) =>
          var pairs := ParseQaPairs(qaText);
          result := Success(pairs);
        case Raised(e) =>
          result := Failure(e);
      }
      events := events + [Sleep(Throttle)];
    }

    /**
     * One pass of a chunk's retry loop (the `try`/`except`/`finally` of the
     * loop body): attempt generation once, then either stop with the
     * records, or count the failure, record the chunk's error entry when the
     * retries are exhausted or back off otherwise, and restore the document.
     * With `total` the whole retry loop as seen from the session (`Continued`),
     * what is left of the loop after this pass is again `Attempts` from the
     * next retry count, or nothing at all when the loop ends.
     */
    method TryChunk(originalText: string, chunk: string, index: nat, numQuestions: int, llm: Llm,
                    retryCount: nat, ghost total: ChunkRun)
      returns (retryCount': nat, outcome: Result<seq<QAPair>, ChunkError>, succeeded: bool)
      requires retryCount <= MaxRetries
      requires documentText == AttemptDocument(originalText, chunk, retryCount)
      requires total == Continued(events, requests, Attempts(originalText, chunk, index, numQuestions, llm, requests, retryCount))
      modifies this`documentText, this`requests, this`events
      ensures documentText == originalText
      ensures succeeded ==> retryCount' == retryCount
      ensures !succeeded ==> retryCount' == retryCount + 1
      ensures (succeeded || retryCount' > MaxRetries) ==>
        outcome == ParseOutcome(total.outcome) && total == ChunkRun(total.outcome, events, requests)
      ensures !succeeded && retryCount' <= MaxRetries ==>
        total == Continued(events, requests, Attempts(originalText, chunk, index, numQuestions, llm, requests, retryCount'))
    {
      ghost var n, k, before := requests, retryCount, events;
      ghost var call := Generate(AttemptDocument(originalText, chunk, k), numQuestions, llm, n);
      ghost var run := Attempts(originalText, chunk, index, numQuestions, llm, n, k);
      var result := GenerateQaPairs(numQuestions, llm);
      AttemptStep(originalText, chunk, index, numQuestions, llm, n, k, call, run, requests, k + 1);
      retryCount' := retryCount;
      match result {
        case Success(qa) =>
          LastStep(total, run, before, n);
          outcome := Success(qa);
          succeeded := true;
        case Failure(e) =>
          succeeded := false;
          retryCount' := retryCount + 1;
          if retryCount' > MaxRetries {
            LastStep(total, run, before, n);
            outcome := Failure(ChunkError(index, retryCount', e.message));
          } else {
            outcome := Failure(ChunkError(index, 0, []));
            events := events + [Sleep(Backoff(BackoffWait(retryCount')))];
            ghost var rest := Attempts(originalText, chunk, index, numQuestions, llm, requests, retryCount');
            RetryStep(total, run, call.events, call.requests, rest, before, n, BackoffWait(retryCount'), events, requests);
          }
      }
      documentText := originalText;
    }

    /**
     * The body of the chunk loop for chunk number `index`: install the chunk
     * as the document once, then attempt generation up to
     * `DEFAULT_CHUNK_RETRIES + 1` times, restoring the document after every
     * attempt and backing off between attempts; it yields the records of the
     * successful attempt or the chunk's error entry, as `Attempts` specifies
     * (`AttemptsMeaning`), and leaves the document as it found it.
     */
    method ProcessChunk(chunk: string, index: nat, numQuestions: int, llm: Llm)
      returns (outcome: Result<seq<QAPair>, ChunkError>)
      modifies this`documentText, this`requests, this`events
      ensures outcome == ParseOutcome(Attempts(old(documentText), chunk, index, numQuestions, llm, old(requests), 0).outcome)
      ensures requests == old(requests) + Attempts(old(documentText), chunk, index, numQuestions, llm, old(requests), 0).requests
      ensures events == old(events) + Attempts(old(documentText), chunk, index, numQuestions, llm, old(requests), 0).events
      ensures documentText == old(documentText)
    {
      var originalText := documentText;
      documentText := chunk;
      ghost var total := Continued(events, requests, Attempts(originalText, chunk, index, numQuestions, llm, requests, 0));
      var retryCount: nat := 0;
      outcome := Failure(ChunkError(index, 0, []));
      while retryCount <= MaxRetries
        invariant retryCount <= MaxRetries + 1
        invariant retryCount <= MaxRetries ==> documentText == AttemptDocument(originalText, chunk, retryCount)
        invariant retryCount > MaxRetries ==> documentText == originalText
        invariant retryCount <= MaxRetries ==>
          total == Continued(events, requests, Attempts(originalText, chunk, index, numQuestions, llm, requests, retryCount))
        invariant retryCount > MaxRetries ==>
          outcome == ParseOutcome(total.outcome) && total == ChunkRun(total.outcome, events, requests)
        decreases MaxRetries + 1 - retryCount
      {
        var succeeded;
        retryCount, outcome, succeeded := TryChunk(originalText, chunk, index, numQuestions, llm, retryCount, total);
        if succeeded {
          break;
        }
      }
    }

    /**
     * One pass of the chunk loop for `chunks[i]`: run its retry loop and add
     * its records to `allQa` or its error entry to `errors`. What the four
     * accumulators plus the runs of the remaining chunks (`Runs` from `i`)
     * add up to is the same before and after the pass.
     */
    method CollectChunk(chunks: seq<string>, i: nat, numQuestions: int, llm: Llm,
                        allQa: seq<QAPair>, errors: seq<ChunkError>,
                        ghost qaTotal: seq<QAPair>, ghost errorsTotal: seq<ChunkError>,
                        ghost eventsTotal: seq<Event>, ghost requestsTotal: nat)
      returns (allQa': seq<QAPair>, errors': seq<ChunkError>)
      requires i < |chunks|
      requires allQa + Pairs(Runs(documentText, chunks, numQuestions, llm, requests, i)) == qaTotal
      requires errors + Errors(Runs(documentText, chunks, numQuestions, llm, requests, i)) == errorsTotal
      requires events + Events(Runs(documentText, chunks, numQuestions, llm, requests, i)) == eventsTotal
      requires requests + Requests(Runs(documentText, chunks, numQuestions, llm, requests, i)) == requestsTotal
      modifies this`documentText, this`requests, this`events
      ensures documentText == old(documentText)
      ensures allQa' + Pairs(Runs(documentText, chunks, numQuestions, llm, requests, i + 1)) == qaTotal
      ensures errors' + Errors(Runs(documentText, chunks, numQuestions, llm, requests, i + 1)) == errorsTotal
      ensures events + Events(Runs(documentText, chunks, numQuestions, llm, requests, i + 1)) == eventsTotal
      ensures requests + Requests(Runs(documentText, chunks, numQuestions, llm, requests, i + 1)) == requestsTotal
    {
      ghost var document, n, eventsBefore := documentText, requests, events;
      var outcome := ProcessChunk(chunks[i], i + 1, numQuestions, llm);
      allQa', errors' := allQa, errors;
      match outcome {
        case Success(qa) =>
          allQa' := allQa + qa;
        case Failure(e) =>
          errors' := errors + [e];
      }
      CollectStep(document, chunks, i, numQuestions, llm, n, requests, eventsBefore, events, outcome,
                  allQa, allQa', errors, errors', qaTotal, errorsTotal, eventsTotal, requestsTotal);
    }

    /**
     * `generate_qa_pairs_chunked(numQuestions, chunkSize, overlap)`: without
     * a document it raises `ValueError`; otherwise it cuts the document into
     * the chunks `Chunks` describes and runs every chunk's retry loop in
     * turn. It returns the records of the chunks that succeeded, in chunk
     * order, and the error entries of those that exhausted their retries
     * (`Runs`, with `RunsErrors`, `RunsRequests` and `AllAnswered`), and the
     * document is the same on return as on entry.
     */
    method GenerateQaPairsChunked(numQuestions: int, chunkSize: nat, overlap: int, llm: Llm)
      returns (result: Result<seq<QAPair>, Exception>, errors: seq<ChunkError>)
      modifies this`documentText, this`requests, this`events
      ensures documentText == old(documentText)
      ensures old(documentText) == [] ==>
        && result == Failure(ValueError(NoDocumentMessage)) && errors == []
        && requests == old(requests) && events == old(events)
      ensures old(documentText) != [] ==>
        result == Success(Pairs(SessionRuns(old(documentText), chunkSize, overlap, numQuestions, llm, old(requests))))
      ensures old(documentText) != [] ==>
        errors == Errors(SessionRuns(old(documentText), chunkSize, overlap, numQuestions, llm, old(requests)))
      ensures old(documentText) != [] ==>
        requests == old(requests) + Requests(SessionRuns(old(documentText), chunkSize, overlap, numQuestions, llm, old(requests)))
      ensures old(documentText) != [] ==>
        events == old(events) + Events(SessionRuns(old(documentText), chunkSize, overlap, numQuestions, llm, old(requests)))
    {
      if documentText == [] {
        return Failure(ValueError(NoDocumentMessage)), [];
      }
      var chunks := ChunkText(documentText, chunkSize, overlap, Config.DefaultMaxChunks);
      var allQa;
      allQa, errors := CollectChunks(chunks, numQuestions, llm);
      result := Success(allQa);
    }

    /**
     * The chunk loop of `generate_qa_pairs_chunked`: every chunk's retry loop
     * in turn, gathering the records and the error entries of all runs.
     */
    method CollectChunks(chunks: seq<string>, numQuestions: int, llm: Llm)
      returns (allQa: seq<QAPair>, errors: seq<ChunkError>)
      modifies this`documentText, this`requests, this`events
      ensures documentText == old(documentText)
      ensures allQa == Pairs(Runs(old(documentText), chunks, numQuestions, llm, old(requests), 0))
      ensures errors == Errors(Runs(old(documentText), chunks, numQuestions, llm, old(requests), 0))
      ensures requests == old(requests) + Requests(Runs(old(documentText), chunks, numQuestions, llm, old(requests), 0))
      ensures events == old(events) + Events(Runs(old(documentText), chunks, numQuestions, llm, old(requests), 0))
    {
      ghost var document := documentText;
      ghost var runs := Runs(document, chunks, numQuestions, llm, requests, 0);
      ghost var requests0, events0 := requests, events;
      allQa, errors := [], [];
      for i := 0 to |chunks|
        invariant documentText == document
        invariant allQa + Pairs(Runs(document, chunks, numQuestions, llm, requests, i)) == Pairs(runs)
        invariant errors + Errors(Runs(document, chunks, numQuestions, llm, requests, i)) == Errors(runs)
        invariant events + Events(Runs(document, chunks, numQuestions, llm, requests, i)) == events0 + Events(runs)
        invariant requests + Requests(Runs(document, chunks, numQuestions, llm, requests, i)) == requests0 + Requests(runs)
      {
        allQa, errors := CollectChunk(chunks, i, numQuestions, llm, allQa, errors,
                                      Pairs(runs), Errors(runs), events0 + Events(runs), requests0 + Requests(runs));
      }
      assert Runs(document, chunks, numQuestions, llm, requests, |chunks|) == [];
      assert Replies([]) == [] && Pairs([]) == Concat(Parse, []) == [];
    }
  }
}
