/**
 * What the exporter receives from the outside world, as values.
 *
 * Every remote call (Slack Web API or file download) is modelled by an
 * oracle: the sequence of answers the remote gives to successive attempts.
 * A loop that runs out of answers has not finished yet (the exporter would
 * still be retrying or waiting), which the outcome `Pending` records.
 */
module Remote {

  datatype Option<T> = None | Some(value: T) {
    function GetOr(default: T): T {
      match this
      case Some(v) => v
      case None => default
    }
  }

  /** Why a call or a run stopped with an exception. */
  datatype Failure =
    | SlackApiError(error: string)   // a SlackApiError raised by the client (re-raised as is)
    | MissingKey(key: string)        // a KeyError on a record that lacks a field
    | NoSuchUser(userId: string)     // the IndexError of an empty user lookup
    | RetriesExhausted(retries: nat) // the download path's "Failed to download after N retries"
    | HttpStatus(code: int)          // the download path's "HTTP <code> error"
    | NetworkFailure                 // a re-raised requests exception
    | FileMissing(file: string)      // the FileNotFoundError of a resumed run's saved list

  /** The result of a step that computes locally and may raise. */
  datatype Result<T> = Ok(value: T) | Err(failure: Failure)

  /** The result of a step that talks to the remote. */
  datatype Outcome<T> = Done(value: T) | Failed(failure: Failure) | Pending

  /** `xs` placed before the value of a successful outcome; failures pass through. */
  function Prefixed<T>(xs: seq<T>, o: Outcome<seq<T>>): (r: Outcome<seq<T>>)
    ensures r.Done? <==> o.Done?
    ensures r.Done? ==> r.value == xs + o.value
    ensures !o.Done? ==> r == o
  {
    match o
    case Done(ys) => Done(xs + ys)
    case Failed(f) => Failed(f)
    case Pending => Pending
  }

  /** One answer of a Slack Web API method: a response, or a SlackApiError
      with its `error` field and the two places a retry-after hint can sit. */
  datatype ApiReply<T> =
    | Answer(value: T)
    | SlackError(error: string, headerRetryAfter: Option<int>, bodyRetryAfter: Option<real>)

  /** The `error` value Slack uses for throttling. */
  const RateLimitedError := "ratelimited"

  predicate IsRateLimited<T>(r: ApiReply<T>) {
    r.SlackError? && r.error == RateLimitedError
  }

  type Bytes = seq<bv8>

  /** One attempt of an HTTP GET: a response with its status, its
      `Retry-After` header when present and its body, or a transport error. */
  datatype HttpReply =
    | Status(code: int, retryAfter: Option<int>, content: Bytes)
    | NetworkError

  /** `response_metadata` of a listing response; `nextCursor` is None when
      the `next_cursor` key is absent. */
  datatype ResponseMetadata = ResponseMetadata(nextCursor: Option<string>)

  /** A listing response: its items and, when present, its metadata. */
  datatype Page<T> = Page(items: seq<T>, metadata: Option<ResponseMetadata>)
}
