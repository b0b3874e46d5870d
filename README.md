# Verified model of the RAG Q&A generator

This project is a Dafny model of the core of a small service. The service turns a document's text into question/answer records by asking a large language model. The model covers three pieces:

- The `SimpleRAG` class of `rag_core.py`:
  - the sentence-aware chunker `chunk_text`;
  - the line parser `_parse_qa_pairs`;
  - the single-shot generator `generate_qa_pairs`;
  - the chunked driver `generate_qa_pairs_chunked`, which runs a per-chunk retry loop with exponential backoff and swaps `document_text` to the chunk and back.
- The status-code decisions of the HTTP routes in `api.py`.
- The stand-alone variant `simple_rag_qa.py`: its duplicate parser, its generator and its two routes.

## How the model is built

- **Language model.** The model is an oracle `Generation.Llm`, a function from the session's request number and the prompt to a reply. A reply is either the text of the answer or a raised exception. A prompt keeps the number of questions asked and the part of the document it embeds, which is the first 8000 characters. The Italian instruction text is not kept.
- **Sleeps.** `time.sleep` is recorded as a ghost list of events on the class. The events are `Request(prompt)`, `Sleep(Throttle)` after every request and `Sleep(Backoff(seconds))` before a retry.
- **Specifications.** Each imperative method is proved against a specification function:
  - `Chunking.Chunks` for `chunk_text`;
  - `QaParsing.Parse`, a scan over classified lines, for the parser;
  - `Generation.Generate` for one generation call;
  - `Generation.Attempts` for one chunk's retry loop;
  - `Generation.Runs` for the whole chunk loop.
- **Properties.** They are lemmas about those functions:
  - window bounds and coverage of the text;
  - a block-wise reference description of the parser (`Records`) and its equivalence with the scan;
  - attempt counts, the backoff schedule, the ordering of error entries and the records in chunk order.
- **Routes.** They are pure functions. Whether the service instance is set is an input. The generators are function parameters that a route applies only after its checks pass, so "the generator is not called" is stated as "the response does not depend on the generator".

**Retries use the full document.** `generate_qa_pairs_chunked` installs the chunk as `document_text` once, before the retry loop (rag_core.py:216-217). Its `finally` restores the full document after the first attempt (rag_core.py:241-243). So although the chunk is installed before the loop, every retry sees the whole document: it sends the first 8000 characters of the full text, not the chunk. `Generation.AttemptDocument` models this, and `Generation.ExhaustedChunk` shows the three prompts.

**Throttle after every call.** The throttle delay sits in a `finally` (rag_core.py:110-112), so it also follows a failed call, not only a successful one.

## Model

| member | source | states |
|---|---|---|
| Text.StripFacts | rag_core.py:124 | `strip()` drops an all-white-space prefix and suffix and returns the slice between them, which neither starts nor ends with white space; the result is empty exactly when the text is all white space |
| Text.FindFirst | rag_core.py:131 | `find` returns -1 exactly when the character is absent; otherwise it returns an index that holds the character, with none before it |
| Text.AfterFirstFacts | rag_core.py:134 | `s.split(':', 1)[1]` is what follows the first ':'; the text before it holds no ':' |
| Text.SplitFacts | rag_core.py:124 | the pieces of `split('\n')` hold no separator, and joining them gives the string back |
| Text.SplitJoin | rag_core.py:124 | splitting a join of separator-free pieces gives the pieces back |
| Text.RFindLast | rag_core.py:165 | `rfind('.', start, end)` returns the last '.' in the range; -1 means there is none |
| Chunking.WindowEnd | rag_core.py:161-167 | a window ends no further than `start + max_chars` and the end of the text, strictly after its start when `max_chars > 0`, and at the end of the text when the rest fits |
| Chunking.WindowEndSnaps | rag_core.py:163-167 | when text remains, the window ends just after the last '.' strictly inside `(start, start + max_chars)`, or at `start + max_chars` when there is none |
| Chunking.NextStart | rag_core.py:178-180 | the next cursor is strictly greater than the current one, and with a non-negative overlap it is no greater than the window's end |
| Chunking.Trace | rag_core.py:159-180 | the loop visits no window exactly when the cursor is at the end or no chunk may be emitted; otherwise the first window starts at the cursor |
| Chunking.TraceFits | rag_core.py:159-167 | every visited window lies in the text and ends where `WindowEnd` puts it |
| Chunking.TraceLinked | rag_core.py:175-180 | every window but the last stops short of the end of the text, and the next one starts at `max(end - overlap, start + 1)` |
| Chunking.TraceBudget | rag_core.py:159-172 | at most `max_chunks` chunks are emitted, and exactly that many when the loop stops before the end of the text |
| Chunking.Texts | rag_core.py:170-172 | the stripped windows with the empty ones dropped: at most one chunk per window; `Chunking.TextsNonEmpty` proves every chunk non-empty |
| Chunking.Chunks | rag_core.py:156-185 | every returned chunk is non-empty, and there are at most `max_chunks` of them |
| Chunking.EmptyTextHasNoChunks | rag_core.py:159 | the empty text yields no chunks |
| Chunking.ShortTextIsOneChunk | rag_core.py:159-176 | a text no longer than `max_chars` yields its stripped self, or nothing when it is all white space |
| Chunking.FittedLinkedCover | rag_core.py:159-180 | with `max_chars > 0` and `overlap >= 0`, the windows are non-empty, at most `max_chars` long and chained, and they cover every position from the first start to the last end |
| Chunking.ChunkingCoversText | rag_core.py:156-185 | the windows start at 0, are non-empty and bounded, advance strictly and leave no gap; they end at the end of the text unless `max_chunks` chunks were emitted |
| QaParsing.Classify | rag_core.py:129-137 | how one line reads to the parser; it has no contract of its own, and `QaParsing.ClassifyMeaning` states what it computes |
| QaParsing.Scan | rag_core.py:127-140 | the parser's state machine over the markers with its two slots; `QaParsing.ScanShape` and `QaParsing.ScanIsRecords` state what it computes |
| QaParsing.Parse | rag_core.py:123-142 | what `_parse_qa_pairs` returns; `QaParsing.ParseShape` and `QaParsing.ParseIsRecords` state what it computes |
| QaParsing.ClassifyMeaning | rag_core.py:129-137 | a line is a question (answer) marker exactly when, trimmed, it starts with 'Q' ('A') and holds ':'; its field is the trimmed text after the first ':' |
| QaParsing.Emit | rag_core.py:132-133 | a pending pair yields one record exactly when both slots hold text |
| QaParsing.ScanStep | rag_core.py:129-137 | one line of the scan: a question flushes the pending pair and clears the answer, an answer overwrites the answer, any other line changes nothing |
| QaParsing.ScanShape | rag_core.py:129-140 | every record has a non-empty question and answer; there is at most one record per question marker |
| QaParsing.ParseShape | rag_core.py:123-142 | every parsed record has a non-empty question and answer; there are at most as many records as question lines |
| QaParsing.ScanIsRecords | rag_core.py:129-140 | the scan emits the pending pair's record, then one record per question block: the question with the last answer of its block |
| QaParsing.ParseIsRecords | rag_core.py:123-142 | the parser computes the block-wise records of the reply's lines |
| QaParsing.RecordsCount | rag_core.py:131-134 | at most one record per question marker |
| QaParsing.RecordsAppend | rag_core.py:129-140 | records come in input order: the records of two parts split at a question are those of the first part, then those of the second |
| QaParsing.BlockRecord | rag_core.py:131-140 | a question block yields its question with its last answer, and nothing when it holds no answer |
| QaParsing.LastAnswerIsLast | rag_core.py:136-137 | a block's answer is the field of an answer marker that no later answer marker follows |
| QaParsing.UnansweredQuestionDropped | rag_core.py:131-135 | a question with no answer line before the next question is dropped |
| QaParsing.LastAnswerWins | rag_core.py:136-137 | with several answer lines after one question, only the last is kept |
| QaParsing.LeadingMarkersIgnored | rag_core.py:131-137 | lines before the first question, answer lines among them, add no record |
| QaParsing.DanglingQuestionDropped | rag_core.py:132-140 | over markers: the marker sequence question q, answer a, question q2 yields only the pair (q, a) |
| QaParsing.ClassifyLine | rag_core.py:130-137 | a line `head: field` with a ':'-free head is a question marker when the head starts with 'Q', an answer marker when it starts with 'A', and its field is `field` |
| QaParsing.LinesOfJoin | rag_core.py:124 | a reply made of newline-free lines, with no white space at its ends, splits back into exactly those lines |
| QaParsing.DanglingQuestionInReply | rag_core.py:123-142 | on reply text: `"Q1: q\nA1: a\nQ2: q2"` parses to the single pair (q, a), for any one-line fields without white space at their ends |
| QaParsing.ParseAllFilled | rag_core.py:224-225 | the records gathered from any number of replies all have a non-empty question and answer |
| QaParsing.ParseAllAppend | rag_core.py:224-225 | the records of several replies are those of each reply, in order |
| Generation.Generate | rag_core.py:65-112 | one call of `generate_qa_pairs`; it has no contract of its own, and `Generation.GenerateMeaning` states what it computes |
| Generation.GenerateMeaning | rag_core.py:77-112 | without a document: `ValueError`, no request, no sleep; with one: one request whose prompt embeds the first 8000 characters, a throttle sleep after it whether the model answers or raises, the answer parsed or the exception passed on |
| Generation.GenerateSeesPrefix | rag_core.py:96 | two documents that agree on their first 8000 characters give the same generation: the same outcome, events and request count |
| Generation.BackoffWait | rag_core.py:238 | the backoff lies between 1 second and `MAX_RETRY_WAIT` |
| Generation.BackoffWaits | rag_core.py:238 | the backoffs are 2, 4 and 8 seconds for retries 1 to 3, and 10 seconds from then on |
| Generation.AttemptDocument | rag_core.py:216-243 | the document attempt j sends: the chunk on the first attempt, the restored full document on every retry; `Generation.AnsweredChunk` and `Generation.ExhaustedChunk` state the prompts that result |
| Generation.Attempts | rag_core.py:219-243 | the retry loop of one chunk; it has no contract of its own, and `Generation.AttemptsMeaning` states what it computes |
| Generation.AttemptsMeaning | rag_core.py:216-243 | a chunk makes one to `DEFAULT_CHUNK_RETRIES + 1` attempts; every attempt but the last failed; the chunk succeeds exactly when the last reply is an answer; its events are the attempts' requests and throttles, separated by backoffs, with none after the last; a failure carries the last exception's message |
| Generation.AttemptsEvents | rag_core.py:222-240 | from any attempt, the loop makes one to the remaining number of requests, and its events are those of its attempts |
| Generation.AttemptsRaisedBefore | rag_core.py:222-240 | from any attempt, the loop makes at least one request, and every attempt but the last one raised |
| Generation.AttemptsLastDecides | rag_core.py:222-235 | from any attempt, the last reply decides the outcome: its text when it is an answer, otherwise an error entry for the last allowed attempt carrying that failure's message |
| Generation.AttemptsCount | rag_core.py:219-222 | a chunk makes one to `DEFAULT_CHUNK_RETRIES + 1` requests |
| Generation.AttemptsError | rag_core.py:229-235 | a chunk's error entry names the chunk number and the final attempt number |
| Generation.AnsweredChunk | rag_core.py:216-227 | a chunk answered on its first attempt makes one request, with the chunk's text in the prompt, and no backoff |
| Generation.ExhaustedChunk | rag_core.py:216-243 | a chunk whose every attempt fails makes three requests: the first with the chunk, the retries with the full document's prefix; the backoffs are 2 and 4 seconds; the error entry carries attempt 3 and the last message |
| Generation.Runs | rag_core.py:212-243 | the chunk loop runs one retry loop per chunk, whatever happened to the chunks before it |
| Generation.RunsCons | rag_core.py:212-243 | the first chunk runs its retry loop; the later chunks start at the next request number |
| Generation.PairsCons | rag_core.py:224-225 | the records are the parsed reply of a chunk that succeeded, followed by the records of the later chunks |
| Generation.ErrorsCons | rag_core.py:234-235 | a chunk that exhausted its retries adds its error entry before those of the later chunks |
| Generation.RunsRequestsEach | rag_core.py:219-222 | each non-empty chunk of a non-empty document makes one to three requests |
| Generation.RequestsBetween | rag_core.py:219-222 | runs of one to three requests each make between one and three requests per run in total |
| Generation.RunsRequests | rag_core.py:212-222 | the chunk loop makes between `|chunks|` and `3·|chunks|` requests |
| Generation.RunsErrorsAt | rag_core.py:229-235 | the run at position i failed, if at all, as chunk i + 1 on its final attempt |
| Generation.OrderedErrors | rag_core.py:229-235 | there is at most one error entry per run, for the final attempt, in strictly increasing chunk order |
| Generation.RunsErrors | rag_core.py:212-235 | at most one error entry per chunk, each for the final attempt, with strictly increasing chunk numbers |
| Generation.RunsAnswered | rag_core.py:212-227 | when the model always answers, every chunk takes one request with its own text |
| Generation.FirstTryRuns | rag_core.py:212-227 | runs that all succeeded on one request record no error, take one request each and keep their replies in order |
| Generation.AllAnswered | rag_core.py:212-227 | when the model always answers: no error entry, one request per chunk, and the replies are those to the chunks, in chunk order |
| Generation.MiddleChunkFails | rag_core.py:212-243 | when only the second of three chunks keeps failing: the records of chunks 1 and 3 in order, one error entry for chunk 2 attempt 3, and five requests; the third chunk is still processed |
| RagCore.LineStep | rag_core.py:129-137 | one line of the parser's loop keeps "records so far plus the scan of the rest" equal to the whole scan |
| RagCore.LastCursorStep | rag_core.py:169-176 | a window that reaches the end of the text completes the chunks |
| RagCore.CursorStep | rag_core.py:169-180 | after any other window, the chunks so far plus those from the next cursor are still all the chunks |
| RagCore.PairsStep | rag_core.py:224-225 | one chunk keeps "records so far plus those of the later chunks" at the total |
| RagCore.ErrorsStep | rag_core.py:234-235 | one chunk keeps "error entries so far plus those of the later chunks" at the total |
| RagCore.EventsStep | rag_core.py:222-240 | one chunk keeps "events so far plus those of the later chunks" at the total |
| RagCore.RequestsStep | rag_core.py:222-224 | one chunk keeps "requests so far plus those of the later chunks" at the total |
| RagCore.CollectStep | rag_core.py:212-243 | one turn of the chunk loop preserves all four totals |
| RagCore.AttemptStep | rag_core.py:222-240 | one attempt: success ends the loop with the reply; a last failure ends it with the error entry; any other failure is followed by the backoff and the remaining attempts |
| RagCore.RetryStep | rag_core.py:236-240 | after a failed attempt that is not the last, the rest of the retry loop follows its events, its backoff and its request |
| RagCore.LastStep | rag_core.py:227-235 | the last attempt completes the retry loop |
| RagCore.SimpleRag.constructor | rag_core.py:39 | a new instance has no document, no requests and no events |
| RagCore.SimpleRag.SetDocument | rag_core.py:61 | loading text makes it the document |
| RagCore.SimpleRag.ChunkText | rag_core.py:144-185 | the cursor loop returns exactly `Chunks(text, max_chars, overlap, max_chunks)` |
| RagCore.SimpleRag.ParseQaPairs | rag_core.py:114-142 | the line loop returns exactly `Parse(qa_text)`; every record has a non-empty question and answer |
| RagCore.SimpleRag.GenerateQaPairs | rag_core.py:65-112 | the result, the request count and the events are those of `Generate` over the current document |
| RagCore.SimpleRag.TryChunk | rag_core.py:223-243 | one pass of the retry loop: the document is restored; success stops the loop; a failure counts one retry; what is left is `Attempts` from the next retry, or nothing when the loop ends |
| RagCore.SimpleRag.ProcessChunk | rag_core.py:216-243 | the retry loop of one chunk gives the outcome, requests and events of `Attempts`, and leaves `document_text` as it found it |
| RagCore.SimpleRag.CollectChunk | rag_core.py:212-235 | one pass of the chunk loop adds the chunk's records or error entry and keeps the four totals |
| RagCore.SimpleRag.CollectChunks | rag_core.py:208-243 | the chunk loop gathers `Pairs`, `Errors`, `Requests` and `Events` of `Runs` over the chunks, and leaves `document_text` unchanged |
| RagCore.SimpleRag.GenerateQaPairsChunked | rag_core.py:187-249 | without a document: `ValueError`, no request and no event; otherwise the records of the chunks that succeeded in chunk order, one error entry per exhausted chunk, and the requests and events of all runs; the document is unchanged on every path |
| Api.GenerateQa | api.py:58-82 | the status is 200, 400 or 500; 400 exactly when the instance is set and the question count is out of range; 200 exactly when, in addition to passing the checks, the generator succeeds; a 200 carries a count equal to the number of records |
| Api.GenerateQaChunked | api.py:96-152 | the status is 200, 400, 500 or 504; 400 exactly when the instance is set and a check fails; 504 exactly when the checks pass and the generator raises `TimeoutError`; a 200 carries a count equal to the number of records |
| Api.DocumentInfo | api.py:161-173 | 200 exactly when there is an instance, otherwise the 500 "not initialized" answer; `Api.DocumentInfoMeaning` states the body |
| Api.Succeeded | api.py:76-79 | a 200 answer carries the records and a count equal to their number |
| Api.ChunkedRejection | api.py:104-129 | the chunked checks pass exactly when the question count is in [1, 20], `chunk_size` in [1000, 16000] and `0 <= overlap < chunk_size` |
| Api.NotInitializedFirst | api.py:58-98 | without an instance, both generating routes answer 500 "not initialized", whatever the parameters |
| Api.GenerateQaRejects | api.py:62-72 | `generate_qa` answers 400 exactly when the instance is set and the question count is out of range; the generator is then not called |
| Api.GenerateQaOutcome | api.py:74-82 | after the checks: 200 with the records exactly when generation succeeds, otherwise 500 with the exception's message |
| Api.ChunkedCheckOrder | api.py:104-129 | the chunked checks run in order: questions, then `chunk_size`, then overlap; the first that fails decides the message |
| Api.GenerateQaChunkedRejects | api.py:96-129 | `generate_qa_chunked` answers 400 exactly when the instance is set and some check fails; the generator is then not called |
| Api.AcceptedFitsChunker | api.py:115-129 | every accepted triple gives the chunker `max_chars > 0` and `0 <= overlap < max_chars` |
| Api.GenerateQaChunkedOutcome | api.py:136-152 | after the checks: 200 with the records on success, 504 on `TimeoutError`, 500 on any other exception |
| Api.CountIsLength | api.py:76-78 | every 200 answer of either generating route carries a count equal to the number of records |
| Api.DocumentInfoMeaning | api.py:161-173 | 500 without an instance; otherwise `document_loaded` holds exactly when the text is non-empty, and `document_length` is its length |
| Api.QaRouteOverSession | api.py:58-82 | over an instance: 500 with the `ValueError` message without a document; otherwise 200 with the parsed reply exactly when the model answers, and 500 with its exception otherwise |
| Api.ChunkedRouteOverSession | api.py:96-152 | over an instance: 500 with the `ValueError` message without a document; otherwise 200, and every returned record has a non-empty question and answer |
| SimpleApp.SimpleRag.constructor | simple_rag_qa.py:12-15 | a new instance has no document and no requests |
| SimpleApp.SimpleRag.SetDocument | simple_rag_qa.py:29 | loading text makes it the document |
| SimpleApp.SimpleRag.ParseQaPairs | simple_rag_qa.py:70-91 | the duplicate line loop returns exactly `Parse`, the same function as the other parser |
| SimpleApp.SimpleRag.GenerateQaPairs | simple_rag_qa.py:33-68 | `ValueError` without a document; otherwise one request whose prompt embeds the first 8000 characters; same outcome and requests as `Generate` |
| SimpleApp.GenerateQa | simple_rag_qa.py:191-212 | the status is 200, 400 or 500; 400 exactly when the instance is set and the question count is outside [1, 20]; a 200 carries a count equal to the number of records |
| SimpleApp.DocumentInfo | simple_rag_qa.py:215-225 | 200 exactly when there is an instance |
| SimpleApp.SameGenerateQa | simple_rag_qa.py:191-212 | the stand-alone `generate_qa` route, with its literal bounds 1 and 20, answers every request as `Api.GenerateQa` does |
| SimpleApp.SameDocumentInfo | simple_rag_qa.py:215-225 | the stand-alone `document_info` route answers as `Api.DocumentInfo` does: loaded exactly when the text is non-empty, and its length |

## Left out

- **The Anthropic client.** The network call, model name, token limit and client-level timeout and retries (rag_core.py:34-38, 100-106; simple_rag_qa.py:14, 57-65) are left out. The language model is an oracle function of the request number and the prompt.
- **Prompt wording.** The Italian instruction text of the prompt is not modelled. A prompt keeps only the question count and the embedded document prefix.
- **Sleeps.** `time.sleep` is recorded as ghost events. The 0.5-second throttle delay (a float) is the `Throttle` event. Backoffs are whole seconds.
- **PDF extraction.** PyPDF2 text extraction (rag_core.py:42-63; simple_rag_qa.py:17-31) is file I/O through a foreign library. Only its final assignment `document_text = text` is modelled, as `SetDocument`.
- **Example PDF.** `create_example_pdf` (utils.py, simple_rag_qa.py:107-158) is not part of this model.
- **Flask plumbing.** Route registration, `jsonify`, parsing of `request.args`, the `health` route, `init_rag`, and bootstrap and threading (app.py) are not modelled. Routes take already-parsed integers, and the global `rag_instance` is the `initialized` input (`Option` for `document_info`).
- **Logging.** `print` output and `print_qa_pairs` are console output only. This includes the warning when `max_chunks` is reached.
- **Error messages.** Error messages are kept as values, not formatted text. A chunk's error entry is `ChunkError(chunk, attempt, message)` instead of the formatted Italian string. The route messages are the literal strings, with the configured bounds written in.
- **The error list.** The list of chunk errors is local to `generate_qa_pairs_chunked` and only printed. The model returns it as a second output so it can be stated.
- **`None` and `""`.** The parser's slots start as `None` in the source and as the empty string in the model. The code only ever checks whether a slot is empty, so the behaviour is the same.
- RagCore.SimpleRag.ChunkText: `max_chars` is a natural number. A negative `max_chars` would make Python slice with negative indices; the routes never pass one.
- Api.GenerateQaChunked: `chunk_size` reaches the generator only after it has been checked to be in [1000, 16000], so the generator's parameter is typed as a natural number.
