/** state/requests.go and the option checks of state/retry.go. */
module Requests {
  import opened Common

  const FIRST_WRITE := "first-write"
  const LAST_WRITE := "last-write"
  const STRONG := "strong"
  const EVENTUAL := "eventual"
  const EXPONENTIAL := "exponential"
  const LINEAR := "linear"

  /** The interval is a 64-bit duration, the threshold a Go int. */
  datatype RetryPolicy = RetryPolicy(interval: int, threshold: int, pattern: string)

  datatype Options = Options(concurrency: string, consistency: string, retryPolicy: RetryPolicy)

  /** CheckSetRequestOptions and CheckDeleteRequestOptions. */
  predicate SupportedOptions(o: Options) {
    && o.concurrency in {"", FIRST_WRITE, LAST_WRITE}
    && o.consistency in {"", STRONG, EVENTUAL}
  }

  /** The option texts a request may carry, and no others. */
  lemma OptionTexts(o: Options)
    ensures SupportedOptions(o) <==>
      && (o.concurrency == "" || o.concurrency == "first-write" || o.concurrency == "last-write")
      && (o.consistency == "" || o.consistency == "strong" || o.consistency == "eventual")
    ensures LAST_WRITE == "last-write" && STRONG == "strong"
  {
  }

  /**
   A value to store: its bytes when it is a byte slice, and what the JSON encoder makes of it, None
   when the encoder fails.
   */
  datatype Payload = Payload(raw: Option<string>, json: Option<string>)

  datatype SetRequest = SetRequest(key: string, value: Payload, etag: string, options: Options)

  datatype DeleteRequest = DeleteRequest(key: string, etag: string, options: Options)
}
