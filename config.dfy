/** The constants of src/config/constants.js and the literals the core
    files write inline, with the same values. */
module Config {
  const DEFAULT_DERIVATION_PATH: string := "m/44'/0'/0'/0/"
  const DEFAULT_BATCH_SIZE: int := 100
  const MAX_CONCURRENT_REQUESTS: int := 10
  const WORKER_COUNT: nat := 4
  const MAX_PATTERNS_TO_STORE: nat := 10000
  const PATTERN_SIMILARITY_THRESHOLD: real := 0.85

  /** Cache entries older than this (in ms) are stale on read. */
  const CACHE_TTL_MS: int := 3600000
  /** The cache sweep and error-pattern pruning horizon, in ms. */
  const ONE_DAY_MS: int := 86400000
  /** Error records are pruned after this many ms. */
  const ONE_HOUR_MS: int := 3600000

  /** Outer batch size of the analyzer core. */
  const CORE_BATCH_SIZE: int := 100
  /** The structured key search tries indices 0 .. this - 1. */
  const STRUCTURED_SEARCH_LIMIT: nat := 1000
  /** The brute-force range of the key search. */
  const BRUTE_FORCE_FIRST: int := 1
  const BRUTE_FORCE_LAST: int := 1000000
  /** patternAnalyzer's `isPromising` threshold. */
  const PROMISING_CONFIDENCE: real := 0.7
}
