/**
 * The two retry loops of the exporter: `retry_on_rate_limit`, which wraps
 * every Slack Web API call, and `download_file_with_retry`, which fetches an
 * attachment. Each is a method that consumes an oracle of answers and records
 * the seconds it sleeps; each is proved equal to a recursive specification
 * function, about which the lemmas below state the retry policy.
 *
 * `maxRetries` is the retry ceiling of the configuration (0 means none).
 */
module Retry {
  import opened Remote

  /** Wait used when a throttled response carries no hint. */
  const DefaultRetryAfter: real := 60.0
  /** Upper bound of a grown wait (five minutes). */
  const BackoffCap: real := 300.0
  /** Growth applies once the retry count exceeds this. */
  const GrowthThreshold: nat := 5

  function Min(a: real, b: real): real {
    if a <= b then a else b
  }

  function MinInt(a: int, b: int): int {
    if a <= b then a else b
  }

  /** `hint * 1.5 ** k`, exactly (the source computes it in floating point). */
  function Scaled(hint: real, k: nat): real {
    if k == 0 then hint else 1.5 * Scaled(hint, k - 1)
  }

  /** The seconds a throttled API call asks for: the `Retry-After` header,
      else `retry_after` in the body, else the default. */
  function RetryAfterHint(header: Option<int>, body: Option<real>): real {
    if header.Some? then header.value as real
    else if body.Some? then body.value
    else DefaultRetryAfter
  }

  /** The hint of a throttled answer. */
  function ReplyHint<T>(r: ApiReply<T>): real
    requires r.SlackError?
  {
    RetryAfterHint(r.headerRetryAfter, r.bodyRetryAfter)
  }

  /** The wait before retry number `n` of an API call: the hint itself up to
      the fifth retry, then the hint grown by 1.5^(n-5) and capped. */
  function ApiBackoff(hint: real, n: nat): real {
    if n > GrowthThreshold then Grown(hint, n) else hint
  }

  /** The hint grown by 1.5^(n-5), capped at five minutes. */
  function Grown(hint: real, n: nat): real
    requires n > GrowthThreshold
  {
    Min(Scaled(hint, n - GrowthThreshold), BackoffCap)
  }

  /** What one run of the API retry loop did: its outcome, the seconds it
      slept, in order, and how many answers of the oracle it consumed. */
  datatype Invocation<T> = Invocation(outcome: Outcome<T>, waits: seq<real>, used: nat)

  /** The API retry loop, started with `count` retries already made. */
  function InvokeFrom<T>(rs: seq<ApiReply<T>>, count: nat, maxRetries: nat): (r: Invocation<T>)
    ensures r.used <= |rs|
    ensures !r.outcome.Pending? ==> 1 <= r.used
    decreases |rs|
  {
    if rs == [] then Invocation(Pending, [], 0)
    else match rs[0]
      case Answer(v) => Invocation(Done(v), [], 1)
      case SlackError(err, header, body) =>
        if err != RateLimitedError then Invocation(Failed(SlackApiError(err)), [], 1)
        else
          var n := count + 1;
          var wait := ApiBackoff(RetryAfterHint(header, body), n);
          if maxRetries > 0 && n >= maxRetries then Invocation(Failed(SlackApiError(err)), [], 1)
          else
            var rest := InvokeFrom(rs[1..], n, maxRetries);
            Invocation(rest.outcome, [wait] + rest.waits, 1 + rest.used)
  }

  /** `r` preceded by `used` consumed answers and the sleeps `waits`. */
  function AfterWaits<T>(waits: seq<real>, used: nat, r: Invocation<T>): Invocation<T> {
    Invocation(r.outcome, waits + r.waits, used + r.used)
  }

  /** retry_on_rate_limit: call until an answer, a non-throttling error or
      the retry ceiling; sleep the computed wait between attempts. */
  method RetryOnRateLimit<T(==)>(replies: seq<ApiReply<T>>, maxRetries: nat)
    returns (outcome: Outcome<T>, waits: seq<real>, used: nat)
    ensures Invocation(outcome, waits, used) == InvokeFrom(replies, 0, maxRetries)
  {
    var retryCount: nat := 0;
    waits, used := [], 0;
    while true
      invariant used <= |replies| && retryCount == used
      invariant InvokeFrom(replies, 0, maxRetries) == AfterWaits(waits, used, InvokeFrom(replies[used..], retryCount, maxRetries))
      decreases |replies| - used
    {
      if used == |replies| {
        outcome := Pending;
        return;
      }
      var reply := replies[used];
      assert replies[used..][1..] == replies[used + 1..];
      used := used + 1;
      match reply
      case Answer(v) =>
        outcome := Done(v);
        return;
      case SlackError(err, header, body) =>
        if err != RateLimitedError {
          outcome := Failed(SlackApiError(err));
          return;
        }
        retryCount := retryCount + 1;
        var retryAfter := RetryAfterHint(header, body);
        ghost var hint := retryAfter;
        if retryCount > GrowthThreshold {
          retryAfter := Grown(retryAfter, retryCount);
        }
        if maxRetries > 0 && retryCount >= maxRetries {
          outcome := Failed(SlackApiError(err));
          return;
        }
        assert retryAfter == ApiBackoff(hint, retryCount);
        InvokeThrottledStep(replies[used - 1..], retryCount - 1, maxRetries);
        ghost var rest := InvokeFrom(replies[used..], retryCount, maxRetries);
        assert waits + ([retryAfter] + rest.waits) == (waits + [retryAfter]) + rest.waits;
        waits := waits + [retryAfter];
    }
  }

  /** One retry of the API loop: a throttled answer below the ceiling
      costs its backoff and hands over to the rest of the oracle. */
  lemma InvokeThrottledStep<T>(rs: seq<ApiReply<T>>, count: nat, maxRetries: nat)
    requires rs != [] && IsRateLimited(rs[0]) && !(maxRetries > 0 && count + 1 >= maxRetries)
    ensures var rest := InvokeFrom(rs[1..], count + 1, maxRetries);
      InvokeFrom(rs, count, maxRetries)
      == Invocation(rest.outcome, [ApiBackoff(ReplyHint(rs[0]), count + 1)] + rest.waits, 1 + rest.used)
  {
  }

  /** Every sleep follows a throttled answer and lasts the backoff of its
      retry number; a finished call slept once less than it called, and a
      call still pending has only seen throttled answers. */
  lemma {:induction false} InvokeWaits<T>(rs: seq<ApiReply<T>>, count: nat, maxRetries: nat)
    ensures var r := InvokeFrom(rs, count, maxRetries);
      && (r.outcome.Pending? ==> r.used == |rs| && |r.waits| == r.used)
      && (!r.outcome.Pending? ==> |r.waits| == r.used - 1)
      && (forall i :: 0 <= i < |r.waits| ==>
            IsRateLimited(rs[i]) && r.waits[i] == ApiBackoff(ReplyHint(rs[i]), count + i + 1))
    decreases |rs|
  {
    if rs != [] && IsRateLimited(rs[0]) && !(maxRetries > 0 && count + 1 >= maxRetries) {
      InvokeWaits(rs[1..], count + 1, maxRetries);
      var r := InvokeFrom(rs, count, maxRetries);
      var rest := InvokeFrom(rs[1..], count + 1, maxRetries);
      forall i | 1 <= i < |r.waits|
        ensures IsRateLimited(rs[i]) && r.waits[i] == ApiBackoff(ReplyHint(rs[i]), count + i + 1)
      {
        assert r.waits[i] == rest.waits[i - 1];
        assert rs[i] == rs[1..][i - 1];
      }
    }
  }

  /** How a finished call ended: an answer is returned as is; an error is
      raised as is, and a throttling error only at the retry ceiling. */
  lemma {:induction false} InvokeLastReply<T>(rs: seq<ApiReply<T>>, count: nat, maxRetries: nat)
    ensures var r := InvokeFrom(rs, count, maxRetries);
      && (r.outcome.Done? ==> rs[r.used - 1] == Answer(r.outcome.value))
      && (r.outcome.Failed? ==>
            && rs[r.used - 1].SlackError?
            && r.outcome.failure == SlackApiError(rs[r.used - 1].error)
            && (IsRateLimited(rs[r.used - 1]) ==> maxRetries > 0 && count + r.used >= maxRetries))
    decreases |rs|
  {
    if rs != [] && IsRateLimited(rs[0]) && !(maxRetries > 0 && count + 1 >= maxRetries) {
      InvokeLastReply(rs[1..], count + 1, maxRetries);
      var r := InvokeFrom(rs, count, maxRetries);
      if !r.outcome.Pending? {
        assert rs[r.used - 1] == rs[1..][r.used - 2];
      }
    }
  }

  /** With a ceiling, a call consumes at most `maxRetries` answers and is
      never left pending once that many are available. */
  lemma {:induction false} InvokeCeiling<T>(rs: seq<ApiReply<T>>, count: nat, maxRetries: nat)
    requires 0 < maxRetries && count < maxRetries
    ensures count + InvokeFrom(rs, count, maxRetries).used <= maxRetries
    ensures |rs| >= maxRetries - count ==> !InvokeFrom(rs, count, maxRetries).outcome.Pending?
    decreases |rs|
  {
    if rs != [] && IsRateLimited(rs[0]) && count + 1 < maxRetries {
      InvokeCeiling(rs[1..], count + 1, maxRetries);
    }
  }

  /** Without a ceiling, throttling is never raised. */
  lemma {:induction false} InvokeUnlimited<T>(rs: seq<ApiReply<T>>, count: nat)
    ensures InvokeFrom(rs, count, 0).outcome != Failed(SlackApiError(RateLimitedError))
    decreases |rs|
  {
    if rs != [] && IsRateLimited(rs[0]) {
      InvokeUnlimited(rs[1..], count + 1);
    }
  }

  /** Growth never shrinks a non-negative hint and grows with each step. */
  lemma {:induction false} ScaledGrows(hint: real, k: nat)
    requires 0.0 <= hint
    ensures hint <= Scaled(hint, k) <= Scaled(hint, k + 1)
  {
    if k > 0 {
      ScaledGrows(hint, k - 1);
    }
  }

  /** The API backoff: the hint as is up to the fifth retry; afterwards
      never above the cap, never below the (capped) hint, and growing with
      each further retry. */
  lemma ApiBackoffBounds(hint: real, n: nat)
    ensures n <= GrowthThreshold ==> ApiBackoff(hint, n) == hint
    ensures n > GrowthThreshold ==> ApiBackoff(hint, n) <= BackoffCap
    ensures n > GrowthThreshold && 0.0 <= hint ==> ApiBackoff(hint, n) >= Min(hint, BackoffCap)
    ensures n > GrowthThreshold && 0.0 <= hint ==> ApiBackoff(hint, n) <= ApiBackoff(hint, n + 1)
  {
    if n > GrowthThreshold && 0.0 <= hint {
      ScaledGrows(hint, n - GrowthThreshold);
    }
  }

  /** A throttled call with no hint waits the default, then succeeds. */
  lemma DefaultWaitScenario<T>(v: T)
    ensures InvokeFrom([SlackError(RateLimitedError, None, None), Answer(v)], 0, 0)
         == Invocation(Done(v), [60.0], 2)
  {
    var rs: seq<ApiReply<T>> := [SlackError(RateLimitedError, None, None), Answer(v)];
    assert rs[1..] == [Answer(v)];
  }

  // ---------------------------------------------------------------------
  // Attachment downloads

  const DownloadDefaultRetryAfter: int := 60
  const DownloadCap: int := 300
  const NetworkRetryWait: int := 10

  /** The wait after the `n`-th retry on HTTP 429: the `Retry-After` header
      (default 60) up to the fifth retry, then twice that, capped. */
  function ThrottledDownloadWait(header: Option<int>, n: nat): int {
    var retryAfter := header.GetOr(DownloadDefaultRetryAfter);
    if n > GrowthThreshold then MinInt(retryAfter * 2, DownloadCap) else retryAfter
  }

  /** The wait after the `n`-th retry on a transport error. */
  function NetworkWait(n: nat): int {
    if n > GrowthThreshold then MinInt(60 * n, DownloadCap) else NetworkRetryWait
  }

  /** A retryable answer: HTTP 429 or a transport error. */
  predicate IsRetryable(r: HttpReply) {
    r.NetworkError? || r.code == 429
  }

  function DownloadWait(r: HttpReply, n: nat): int {
    if r.NetworkError? then NetworkWait(n) else ThrottledDownloadWait(r.retryAfter, n)
  }

  datatype Download = Download(outcome: Outcome<Bytes>, waits: seq<int>, used: nat)

  /** The download retry loop, started with `count` retries already made. */
  function DownloadFrom(rs: seq<HttpReply>, count: nat, maxRetries: nat): (d: Download)
    ensures d.used <= |rs|
    ensures !d.outcome.Pending? ==> 1 <= d.used
    decreases |rs|
  {
    if rs == [] then Download(Pending, [], 0)
    else match rs[0]
      case Status(code, header, content) =>
        if code == 200 then Download(Done(content), [], 1)
        else if code == 429 then
          var n := count + 1;
          if maxRetries > 0 && n >= maxRetries then Download(Failed(RetriesExhausted(n)), [], 1)
          else
            var rest := DownloadFrom(rs[1..], n, maxRetries);
            Download(rest.outcome, [ThrottledDownloadWait(header, n)] + rest.waits, 1 + rest.used)
        else Download(Failed(HttpStatus(code)), [], 1)
      case NetworkError =>
        var n := count + 1;
        if maxRetries > 0 && n >= maxRetries then Download(Failed(NetworkFailure), [], 1)
        else
          var rest := DownloadFrom(rs[1..], n, maxRetries);
          Download(rest.outcome, [NetworkWait(n)] + rest.waits, 1 + rest.used)
  }

  function DownloadAfter(waits: seq<int>, used: nat, d: Download): Download {
    Download(d.outcome, waits + d.waits, used + d.used)
  }

  /** One answer of the download loop: a terminal answer ends it, a
      retryable one below the ceiling sleeps and goes on. */
  lemma {:induction false} DownloadStep(rs: seq<HttpReply>, count: nat, maxRetries: nat)
    requires rs != []
    ensures var d := DownloadFrom(rs, count, maxRetries); var r := rs[0];
      && (r.Status? && r.code == 200 ==> d == Download(Done(r.content), [], 1))
      && (r.Status? && r.code != 200 && r.code != 429 ==> d == Download(Failed(HttpStatus(r.code)), [], 1))
      && (r.Status? && r.code == 429 && maxRetries > 0 && count + 1 >= maxRetries ==>
            d == Download(Failed(RetriesExhausted(count + 1)), [], 1))
      && (r.NetworkError? && maxRetries > 0 && count + 1 >= maxRetries ==>
            d == Download(Failed(NetworkFailure), [], 1))
      && (IsRetryable(r) && !(maxRetries > 0 && count + 1 >= maxRetries) ==>
            d == DownloadAfter([DownloadWait(r, count + 1)], 1, DownloadFrom(rs[1..], count + 1, maxRetries)))
  {
  }

  /** Two stretches of sleeps and answers, one after the other. */
  lemma {:induction false} DownloadAfterTwice(waits: seq<int>, used: nat, w: int, d: Download)
    ensures DownloadAfter(waits, used, DownloadAfter([w], 1, d)) == DownloadAfter(waits + [w], used + 1, d)
  {
    assert waits + ([w] + d.waits) == (waits + [w]) + d.waits;
  }

  /** download_file_with_retry: GET until HTTP 200; retry on 429 and on
      transport errors up to the ceiling; fail at once on any other status. */
  method DownloadFileWithRetry(replies: seq<HttpReply>, maxRetries: nat)
    returns (outcome: Outcome<Bytes>, waits: seq<int>, used: nat)
    ensures Download(outcome, waits, used) == DownloadFrom(replies, 0, maxRetries)
  {
    var retryCount: nat := 0;
    var remaining := replies;
    waits, used := [], 0;
    while true
      invariant retryCount == used
      invariant DownloadFrom(replies, 0, maxRetries) == DownloadAfter(waits, used, DownloadFrom(remaining, retryCount, maxRetries))
      decreases |remaining|
    {
      if remaining == [] {
        outcome := Pending;
        return;
      }
      var response := remaining[0];
      DownloadStep(remaining, retryCount, maxRetries);
      remaining, used := remaining[1..], used + 1;
      match response
      case Status(code, header, content) =>
        if code == 200 {
          outcome := Done(content);
          assert waits + [] == waits;
          return;
        } else if code == 429 {
          retryCount := retryCount + 1;
          var retryAfter := header.GetOr(DownloadDefaultRetryAfter);
          if retryCount > GrowthThreshold {
            retryAfter := MinInt(retryAfter * 2, DownloadCap);
          }
          if maxRetries > 0 && retryCount >= maxRetries {
            outcome := Failed(RetriesExhausted(retryCount));
            assert waits + [] == waits;
            return;
          }
          DownloadAfterTwice(waits, used - 1, retryAfter, DownloadFrom(remaining, retryCount, maxRetries));
          waits := waits + [retryAfter];
        } else {
          outcome := Failed(HttpStatus(code));
          assert waits + [] == waits;
          return;
        }
      case NetworkError =>
        retryCount := retryCount + 1;
        var waitTime := if retryCount > GrowthThreshold then MinInt(60 * retryCount, DownloadCap) else NetworkRetryWait;
        if maxRetries > 0 && retryCount >= maxRetries {
          outcome := Failed(NetworkFailure);
          assert waits + [] == waits;
          return;
        }
        DownloadAfterTwice(waits, used - 1, waitTime, DownloadFrom(remaining, retryCount, maxRetries));
        waits := waits + [waitTime];
    }
  }

  /** Every sleep of a download follows a 429 or a transport error and lasts
      the wait of that kind for its retry number. */
  lemma {:induction false} DownloadWaits(rs: seq<HttpReply>, count: nat, maxRetries: nat)
    ensures var d := DownloadFrom(rs, count, maxRetries);
      && (d.outcome.Pending? ==> d.used == |rs| && |d.waits| == d.used)
      && (!d.outcome.Pending? ==> |d.waits| == d.used - 1)
      && (forall i :: 0 <= i < |d.waits| ==>
            IsRetryable(rs[i]) && d.waits[i] == DownloadWait(rs[i], count + i + 1))
    decreases |rs|
  {
    if rs != [] {
      DownloadStep(rs, count, maxRetries);
      if IsRetryable(rs[0]) && !(maxRetries > 0 && count + 1 >= maxRetries) {
        DownloadWaits(rs[1..], count + 1, maxRetries);
        var d := DownloadFrom(rs, count, maxRetries);
        var rest := DownloadFrom(rs[1..], count + 1, maxRetries);
        assert d.waits == [DownloadWait(rs[0], count + 1)] + rest.waits;
        forall i | 1 <= i < |d.waits|
          ensures IsRetryable(rs[i]) && d.waits[i] == DownloadWait(rs[i], count + i + 1)
        {
          assert d.waits[i] == rest.waits[i - 1];
          assert rs[i] == rs[1..][i - 1];
        }
      }
    }
  }

  /** How a finished download ended: HTTP 200 returns its body; any status
      other than 200 and 429 fails with that status; a retryable answer
      fails only at the retry ceiling. */
  lemma {:induction false} DownloadLastReply(rs: seq<HttpReply>, count: nat, maxRetries: nat)
    ensures var d := DownloadFrom(rs, count, maxRetries);
      && (d.outcome.Done? ==> rs[d.used - 1].Status? && rs[d.used - 1].code == 200
                              && d.outcome.value == rs[d.used - 1].content)
      && (d.outcome.Failed? && !IsRetryable(rs[d.used - 1]) ==>
            d.outcome.failure == HttpStatus(rs[d.used - 1].code))
      && (d.outcome.Failed? && IsRetryable(rs[d.used - 1]) ==>
            maxRetries > 0 && count + d.used >= maxRetries)
    decreases |rs|
  {
    if rs != [] {
      DownloadStep(rs, count, maxRetries);
    }
    if rs != [] && IsRetryable(rs[0]) && !(maxRetries > 0 && count + 1 >= maxRetries) {
      DownloadLastReply(rs[1..], count + 1, maxRetries);
      var d := DownloadFrom(rs, count, maxRetries);
      if !d.outcome.Pending? {
        assert rs[d.used - 1] == rs[1..][d.used - 2];
      }
    }
  }

  /** With a ceiling, a download consumes at most `maxRetries` answers and
      is never left pending once that many are available. */
  lemma {:induction false} DownloadCeiling(rs: seq<HttpReply>, count: nat, maxRetries: nat)
    requires 0 < maxRetries && count < maxRetries
    ensures count + DownloadFrom(rs, count, maxRetries).used <= maxRetries
    ensures |rs| >= maxRetries - count ==> !DownloadFrom(rs, count, maxRetries).outcome.Pending?
    decreases |rs|
  {
    if rs != [] && IsRetryable(rs[0]) && count + 1 < maxRetries {
      DownloadCeiling(rs[1..], count + 1, maxRetries);
    }
  }

  /** Download waits: a transport error waits 10 seconds up to the fifth
      retry and the full cap after it (60 * n already exceeds 300 at n = 6);
      a 429 waits at most the cap after the fifth retry, and that wait no
      longer grows with the retry count. */
  lemma DownloadWaitBounds(header: Option<int>, n: nat, m: nat)
    ensures n <= GrowthThreshold ==> NetworkWait(n) == NetworkRetryWait
    ensures n > GrowthThreshold ==> NetworkWait(n) == DownloadCap
    ensures n > GrowthThreshold ==> ThrottledDownloadWait(header, n) <= DownloadCap
    ensures n > GrowthThreshold && m > GrowthThreshold ==>
              ThrottledDownloadWait(header, n) == ThrottledDownloadWait(header, m)
  {
  }
}
