/**
 * The remote lyrics client's shared types and its resilient request layer:
 * a send is attempted at most MaxRetries times, only transient failures
 * (connect, timeout, request-building) are retried, and the wait after the
 * k-th failed attempt (0-based) is RetryDelayMs * (k + 1) milliseconds.
 *
 * The HTTP client itself is an oracle: `send(url, k)` is what the k-th
 * attempt to send to `url` yields.
 */
module Lrclib {
  import opened Wrappers

  const MaxRetries: nat := 3
  const RetryDelayMs: nat := 1000

  /** A failed send, by the three classifications the retry loop consults. */
  datatype SendError = SendError(isConnect: bool, isTimeout: bool, isRequest: bool, detail: string)

  predicate IsTransient(e: SendError) {
    e.isConnect || e.isTimeout || e.isRequest
  }

  /** The body of a get-by-fields or get-by-id answer. */
  datatype RawResponse = RawResponse(syncedLyrics: Option<string>, plainLyrics: Option<string>, instrumental: bool)

  /** The structured error body `{statusCode?, error, message}`. */
  datatype ResponseError = ResponseError(statusCode: Option<nat>, error: string, message: string)

  /** A response body, as the JSON decoder would read it. */
  datatype Body = LyricsBody(raw: RawResponse) | ErrorBody(err: ResponseError) | OtherBody

  datatype HttpResponse = HttpResponse(status: nat, body: Body)

  /** What one attempt to send yields: any HTTP answer, or a send error. */
  datatype SendOutcome = Sent(response: HttpResponse) | Failed(error: SendError)

  /** How a remote call can fail. */
  datatype Error = Network(cause: SendError) | Remote(response: ResponseError) | Decode

  /** The lyrics result shared by every lookup. */
  datatype Response =
    | SyncedLyrics(synced: string, plain: string)
    | UnsyncedLyrics(plain: string)
    | IsInstrumental
    | None

  /** One run of the retry loop: its result, the number of sends, and the waits in order. */
  datatype RetryRun = RetryRun(result: Result<HttpResponse, SendError>, attempts: nat, delaysMs: seq<nat>)

  /** The wait after failed attempt `attempt`, if another attempt follows. */
  function DelayAfter(attempt: nat): seq<nat> {
    if attempt + 1 < MaxRetries then [RetryDelayMs * (attempt + 1)] else []
  }

  /** The retry loop from attempt `attempt` on; `lastErr` is the last transient failure. */
  function RetryFrom(url: string, send: (string, nat) -> SendOutcome, attempt: nat, lastErr: Option<SendError>): RetryRun
    requires attempt <= MaxRetries
    requires attempt > 0 ==> lastErr.Some?
    decreases MaxRetries - attempt
  {
    if attempt == MaxRetries then RetryRun(Err(lastErr.value), 0, [])
    else
      match send(url, attempt)
      case Sent(response) => RetryRun(Ok(response), 1, [])
      case Failed(e) =>
        if IsTransient(e) then
          var rest := RetryFrom(url, send, attempt + 1, Some(e));
          RetryRun(rest.result, rest.attempts + 1, DelayAfter(attempt) + rest.delaysMs)
        else RetryRun(Err(e), 1, [])
  }

  function Retry(url: string, send: (string, nat) -> SendOutcome): RetryRun {
    RetryFrom(url, send, 0, Option.None)
  }

  /**
   * get_with_retry and post_with_retry: both run this one loop (the source
   * repeats it verbatim for the two verbs).
   */
  method SendWithRetry(url: string, send: (string, nat) -> SendOutcome)
    returns (result: Result<HttpResponse, SendError>, attempts: nat, delaysMs: seq<nat>)
    ensures RetryRun(result, attempts, delaysMs) == Retry(url, send)
  {
    var lastErr: Option<SendError> := Option.None;
    attempts, delaysMs := 0, [];
    for attempt := 0 to MaxRetries
      invariant attempts == attempt
      invariant attempt > 0 ==> lastErr.Some?
      invariant Retry(url, send) ==
        var rest := RetryFrom(url, send, attempt, lastErr);
        RetryRun(rest.result, attempts + rest.attempts, delaysMs + rest.delaysMs)
    {
      attempts := attempts + 1;
      match send(url, attempt) {
        case Sent(response) =>
          result := Ok(response);
          return;
        case Failed(e) =>
          if IsTransient(e) {
            lastErr := Some(e);
            delaysMs := delaysMs + DelayAfter(attempt);
          } else {
            result := Err(e);
            return;
          }
      }
    }
    result := Err(lastErr.value);
  }

  /** How many of the attempts from `k` on fail transiently before the first that does not. */
  function LeadingTransient(url: string, send: (string, nat) -> SendOutcome, k: nat): (n: nat)
    requires k <= MaxRetries
    ensures k + n <= MaxRetries
    decreases MaxRetries - k
  {
    if k == MaxRetries then 0
    else if send(url, k).Failed? && IsTransient(send(url, k).error) then 1 + LeadingTransient(url, send, k + 1)
    else 0
  }

  /** The backoff waits 1000, 2000, ... for attempts k .. k+m-1. */
  function Backoffs(k: nat, m: nat): (r: seq<nat>)
    ensures |r| == m
    ensures forall j :: 0 <= j < m ==> r[j] == RetryDelayMs * (k + j + 1)
    decreases m
  {
    if m == 0 then [] else [RetryDelayMs * (k + 1)] + Backoffs(k + 1, m - 1)
  }

  /**
   * The policy in closed form, from attempt k on. With n the number of leading
   * transient failures: the attempt after them (if any is left) decides the
   * result, a success is returned as it is and a non-transient error at once;
   * otherwise the last transient error is returned. One wait follows every
   * failed attempt except the last of the three.
   */
  lemma {:induction false} RetryFromClosedForm(url: string, send: (string, nat) -> SendOutcome, k: nat, lastErr: Option<SendError>)
    requires k <= MaxRetries
    requires k > 0 ==> lastErr.Some?
    ensures var n := LeadingTransient(url, send, k);
            var run := RetryFrom(url, send, k, lastErr);
            && run.attempts == (if k + n < MaxRetries then n + 1 else n)
            && run.delaysMs == Backoffs(k, if k + n < MaxRetries then n else if n > 0 then n - 1 else 0)
            && run.result == (if k + n < MaxRetries then
                                (match send(url, k + n)
                                 case Sent(r) => Ok(r)
                                 case Failed(e) => Err(e))
                              else if n > 0 then Err(send(url, MaxRetries - 1).error)
                              else Err(lastErr.value))
    decreases MaxRetries - k
  {
    if k < MaxRetries && send(url, k).Failed? && IsTransient(send(url, k).error) {
      RetryFromClosedForm(url, send, k + 1, Some(send(url, k).error));
      var n := LeadingTransient(url, send, k);
      var rest := RetryFrom(url, send, k + 1, Some(send(url, k).error));
      if k + n < MaxRetries {
        assert DelayAfter(k) == [RetryDelayMs * (k + 1)];
      } else if n > 1 {
        assert DelayAfter(k) == [RetryDelayMs * (k + 1)];
      } else {
        assert DelayAfter(k) == [];
      }
    }
  }

  /** The retry policy of get_with_retry / post_with_retry, from the first attempt. */
  lemma RetryPolicy(url: string, send: (string, nat) -> SendOutcome)
    ensures var n := LeadingTransient(url, send, 0);
            var run := Retry(url, send);
            && 1 <= run.attempts <= MaxRetries
            && run.attempts == (if n < MaxRetries then n + 1 else MaxRetries)
            && run.delaysMs == Backoffs(0, if n < MaxRetries then n else MaxRetries - 1)
            && (n < MaxRetries && send(url, n).Sent? ==> run.result == Ok(send(url, n).response))
            && (n < MaxRetries && send(url, n).Failed? ==>
                  run.result == Err(send(url, n).error) && !IsTransient(send(url, n).error))
            && (n == MaxRetries ==> run.result == Err(send(url, MaxRetries - 1).error))
  {
    RetryFromClosedForm(url, send, 0, Option.None);
  }
}
