/** Configuration constants of the Q&A service (config.py). */
module Config {
  /** Chunking defaults and bounds. */
  const DefaultChunkSize: nat := 8000
  const DefaultOverlap: nat := 200
  const DefaultMaxChunks: nat := 100
  const MinChunkSize: nat := 1000
  const MaxChunkSize: nat := 16000

  /** Number of questions a request may ask for. */
  const DefaultQuestionsPerChunk: nat := 3
  const MinQuestions: nat := 1
  const MaxQuestions: nat := 20

  /** Retry budget of one chunk and the ceiling of its backoff, in seconds. */
  const DefaultChunkRetries: nat := 2
  const MaxRetryWait: nat := 10

  /** Path reported by the document-info route. */
  const DefaultPdfPath: string := "./documento_esempio.pdf"
}
