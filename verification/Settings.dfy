/** Numeric settings of the service, at their default values. */
module Settings {
  // app/pipeline/config.py
  const CHUNK_SIZE := 500
  const MAX_HTTP_BATCH_SIZE := 1000
  const BACKLOG_LIMIT := 200_000
  const STREAM_MAX_LEN := 4000

  // app/pipeline/constants.py
  const READ_COUNT := 4
  const CLAIM_SCAN := 10 * READ_COUNT
  const CLAIM_IDLE_MS := 30_000
}
