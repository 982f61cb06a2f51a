/**
 * Cursor pagination: `fetch_next_cursor` and the `while True` loop that
 * `get_accessible_channels` and `get_messages` run over a listing method.
 * The loop asks for a page with the current cursor (through the retry
 * wrapper), keeps the page's items, sleeps the pacing interval, and goes on
 * while the page names a non-empty next cursor.
 *
 * `take` is what the caller does with a page's items before appending them:
 * the identity for channels and history, the echo filter for thread replies.
 */
module Pagination {
  import opened Remote
  import opened Retry

  /** fetch_next_cursor: the `next_cursor` of the response metadata when the
      metadata, the key and a non-empty value are all present. */
  function NextCursor<T>(p: Page<T>): Option<string> {
    if p.metadata.Some? && p.metadata.value.nextCursor.Some? && p.metadata.value.nextCursor.value != ""
    then p.metadata.value.nextCursor
    else None
  }

  /** Absent metadata, an absent key and an empty string all end the
      listing; any other cursor is handed back unchanged. */
  lemma NextCursorCases<T>(items: seq<T>, c: string)
    ensures NextCursor(Page(items, None)) == None
    ensures NextCursor(Page(items, Some(ResponseMetadata(None)))) == None
    ensures NextCursor(Page(items, Some(ResponseMetadata(Some(""))))) == None
    ensures c != "" ==> NextCursor(Page(items, Some(ResponseMetadata(Some(c))))) == Some(c)
  {
  }

  /** The identity on a page's items. */
  function Keep<T>(items: seq<T>): Result<seq<T>> {
    Ok(items)
  }

  /** What one run of the pagination loop did: its outcome (the kept items
      of all pages, in order), the pages answered, the cursor sent with each
      call, every sleep in order, and the answers of the oracle consumed. */
  datatype Listing<T> = Listing(
    outcome: Outcome<seq<T>>,
    pages: seq<Page<T>>,
    cursors: seq<Option<string>>,
    sleeps: seq<real>,
    used: nat)

  /** The pagination loop, from the call that sends `cursor`. */
  function PaginateFrom<T>(rs: seq<ApiReply<Page<T>>>, cursor: Option<string>, maxRetries: nat,
                           pace: real, take: seq<T> -> Result<seq<T>>): (l: Listing<T>)
    ensures l.used <= |rs|
    decreases |rs|
  {
    var call := InvokeFrom(rs, 0, maxRetries);
    match call.outcome
    case Pending => Listing(Pending, [], [cursor], call.waits, call.used)
    case Failed(f) => Listing(Failed(f), [], [cursor], call.waits, call.used)
    case Done(page) =>
      match take(page.items)
      case Err(f) => Listing(Failed(f), [page], [cursor], call.waits, call.used)
      case Ok(kept) =>
        var next := NextCursor(page);
        if next.None? then Listing(Done(kept), [page], [cursor], call.waits + [pace], call.used)
        else
          var rest := PaginateFrom(rs[call.used..], next, maxRetries, pace, take);
          Listing(Prefixed(kept, rest.outcome), [page] + rest.pages, [cursor] + rest.cursors,
                  call.waits + [pace] + rest.sleeps, call.used + rest.used)
  }

  /** A listing preceded by what earlier iterations produced. */
  function Continued<T>(items: seq<T>, pages: seq<Page<T>>, cursors: seq<Option<string>>,
                        sleeps: seq<real>, used: nat, l: Listing<T>): Listing<T>
  {
    Listing(Prefixed(items, l.outcome), pages + l.pages, cursors + l.cursors, sleeps + l.sleeps, used + l.used)
  }

  lemma ContinuedTwice<T>(items: seq<T>, pages: seq<Page<T>>, cursors: seq<Option<string>>, sleeps: seq<real>, used: nat,
                          items': seq<T>, pages': seq<Page<T>>, cursors': seq<Option<string>>, sleeps': seq<real>, used': nat,
                          l: Listing<T>)
    ensures Continued(items, pages, cursors, sleeps, used, Continued(items', pages', cursors', sleeps', used', l))
         == Continued(items + items', pages + pages', cursors + cursors', sleeps + sleeps', used + used', l)
  {
    assert pages + (pages' + l.pages) == (pages + pages') + l.pages;
    assert cursors + (cursors' + l.cursors) == (cursors + cursors') + l.cursors;
    assert sleeps + (sleeps' + l.sleeps) == (sleeps + sleeps') + l.sleeps;
    if l.outcome.Done? {
      assert items + (items' + l.outcome.value) == (items + items') + l.outcome.value;
    }
  }

  /** A call that ends the loop: it fails or stays pending, its page's
      items cannot be taken, or its page has no next cursor. */
  lemma {:induction false} LastPage<T>(rs: seq<ApiReply<Page<T>>>, cursor: Option<string>, maxRetries: nat,
                                       pace: real, take: seq<T> -> Result<seq<T>>)
    ensures var call := InvokeFrom(rs, 0, maxRetries);
      var l := PaginateFrom(rs, cursor, maxRetries, pace, take);
      && (call.outcome.Pending? ==> l == Listing(Pending, [], [cursor], call.waits, call.used))
      && (call.outcome.Failed? ==> l == Listing(Failed(call.outcome.failure), [], [cursor], call.waits, call.used))
      && (call.outcome.Done? && take(call.outcome.value.items).Err? ==>
            l == Listing(Failed(take(call.outcome.value.items).failure), [call.outcome.value], [cursor], call.waits, call.used))
      && (call.outcome.Done? && take(call.outcome.value.items).Ok? && NextCursor(call.outcome.value).None? ==>
            l == Listing(Done(take(call.outcome.value.items).value), [call.outcome.value], [cursor],
                         call.waits + [pace], call.used))
  {
  }

  /** A page that has a next cursor: the listing is that page followed by
      the listing from the next cursor on the remaining replies. */
  lemma {:induction false} PageThenRest<T>(rs: seq<ApiReply<Page<T>>>, cursor: Option<string>, maxRetries: nat,
                                           pace: real, take: seq<T> -> Result<seq<T>>, page: Page<T>, kept: seq<T>)
    requires InvokeFrom(rs, 0, maxRetries).outcome == Done(page)
    requires take(page.items) == Ok(kept) && NextCursor(page).Some?
    ensures var call := InvokeFrom(rs, 0, maxRetries);
      PaginateFrom(rs, cursor, maxRetries, pace, take)
        == Continued(kept, [page], [cursor], call.waits + [pace], call.used,
                     PaginateFrom(rs[call.used..], NextCursor(page), maxRetries, pace, take))
  {
  }

  /** A listing preceded by nothing is itself. */
  lemma {:induction false} ContinuedNothing<T>(l: Listing<T>)
    ensures Continued([], [], [], [], 0, l) == l
  {
    assert [] + l.pages == l.pages && [] + l.cursors == l.cursors && [] + l.sleeps == l.sleeps;
    if l.outcome.Done? {
      assert [] + l.outcome.value == l.outcome.value;
    }
  }

  /** One iteration of the pagination loop: the call with `cursor`
      through the retry wrapper, and what the caller does with its page.
      Either the loop stops here, with the listing from this call on, or
      the page has a next cursor and the listing is the page's kept items
      followed by the listing from that cursor on the replies left. */
  method NextPage<T(==)>(rs: seq<ApiReply<Page<T>>>, cursor: Option<string>, maxRetries: nat, pace: real,
                         take: seq<T> -> Result<seq<T>>)
    returns (stop: bool, last: Listing<T>, kept: seq<T>, page: Page<T>, waits: seq<real>, n: nat)
    ensures n <= |rs|
    ensures stop ==> PaginateFrom(rs, cursor, maxRetries, pace, take) == last
    ensures !stop ==>
      && NextCursor(page).Some?
      && PaginateFrom(rs, cursor, maxRetries, pace, take)
           == Continued(kept, [page], [cursor], waits + [pace], n,
                        PaginateFrom(rs[n..], NextCursor(page), maxRetries, pace, take))
  {
    var call;
    call, waits, n := RetryOnRateLimit(rs, maxRetries);
    LastPage(rs, cursor, maxRetries, pace, take);
    stop, kept, page := true, [], Page([], None);
    if !call.Done? {
      last := Listing(if call.Pending? then Pending else Failed(call.failure), [], [cursor], waits, n);
      return;
    }
    page := call.value;
    var taken := take(page.items);
    if taken.Err? {
      last := Listing(Failed(taken.failure), [page], [cursor], waits, n);
      return;
    }
    kept := taken.value;
    last := Listing(Done(kept), [page], [cursor], waits + [pace], n);
    if NextCursor(page).Some? {
      stop := false;
      PageThenRest(rs, cursor, maxRetries, pace, take, page, kept);
    }
  }

  /** The pagination loop of the source: the first call sends no cursor. */
  method Paginate<T(==)>(rs: seq<ApiReply<Page<T>>>, maxRetries: nat, pace: real,
                         take: seq<T> -> Result<seq<T>>)
    returns (outcome: Outcome<seq<T>>, pages: seq<Page<T>>, cursors: seq<Option<string>>,
             sleeps: seq<real>, used: nat)
    ensures Listing(outcome, pages, cursors, sleeps, used) == PaginateFrom(rs, None, maxRetries, pace, take)
  {
    var items: seq<T> := [];
    var cursor: Option<string> := None;
    var remaining := rs;
    pages, cursors, sleeps, used := [], [], [], 0;
    ghost var whole := PaginateFrom(rs, None, maxRetries, pace, take);
    ContinuedNothing(whole);
    var last: Listing<T>;
    while true
      invariant whole == Continued(items, pages, cursors, sleeps, used, PaginateFrom(remaining, cursor, maxRetries, pace, take))
      decreases |remaining|
    {
      var stop, kept, page, waits, n;
      stop, last, kept, page, waits, n := NextPage(remaining, cursor, maxRetries, pace, take);
      if stop {
        break;
      }
      ContinuedTwice(items, pages, cursors, sleeps, used, kept, [page], [cursor], waits + [pace], n,
                     PaginateFrom(remaining[n..], NextCursor(page), maxRetries, pace, take));
      items, pages, cursors := items + kept, pages + [page], cursors + [cursor];
      sleeps, used := sleeps + (waits + [pace]), used + n;
      cursor, remaining := NextCursor(page), remaining[n..];
    }
    outcome := Prefixed(items, last.outcome);
    pages, cursors, sleeps, used := pages + last.pages, cursors + last.cursors, sleeps + last.sleeps, used + last.used;
  }

  // ---------------------------------------------------------------------
  // What a listing is

  /** The values of the successful answers, in order. */
  function Answers<T>(rs: seq<ApiReply<T>>): seq<T> {
    if rs == [] then [] else (if rs[0].Answer? then [rs[0].value] else []) + Answers(rs[1..])
  }

  lemma {:induction false} AnswersAppend<T>(a: seq<ApiReply<T>>, b: seq<ApiReply<T>>)
    ensures Answers(a + b) == Answers(a) + Answers(b)
    decreases |a|
  {
    if a == [] {
      assert a + b == b;
    } else {
      assert (a + b)[0] == a[0];
      assert (a + b)[1..] == a[1..] + b;
      AnswersAppend(a[1..], b);
    }
  }

  /** The answers of two consecutive stretches of replies. */
  lemma {:induction false} AnswersSplit<T>(rs: seq<ApiReply<T>>, m: nat, n: nat)
    requires m + n <= |rs|
    ensures Answers(rs[..m + n]) == Answers(rs[..m]) + Answers(rs[m..][..n])
  {
    assert rs[..m + n] == rs[..m] + rs[m..][..n];
    AnswersAppend(rs[..m], rs[m..][..n]);
  }

  /** A call through the retry wrapper consumes throttled answers and, when
      it succeeds, exactly one answer: the value it returns. */
  lemma {:induction false} InvokeAnswers<T>(rs: seq<ApiReply<T>>, count: nat, maxRetries: nat)
    ensures var r := InvokeFrom(rs, count, maxRetries);
      Answers(rs[..r.used]) == if r.outcome.Done? then [r.outcome.value] else []
    decreases |rs|
  {
    var r := InvokeFrom(rs, count, maxRetries);
    if rs != [] && IsRateLimited(rs[0]) && !(maxRetries > 0 && count + 1 >= maxRetries) {
      InvokeAnswers(rs[1..], count + 1, maxRetries);
      assert rs[..r.used][1..] == rs[1..][..r.used - 1];
    } else if rs != [] {
      assert rs[..r.used] == [rs[0]];
      assert Answers(rs[..r.used]) == (if rs[0].Answer? then [rs[0].value] else []) + Answers([]);
    }
  }

  /** The pages of a listing are exactly the successful answers it
      consumed, in order: one successful call per page. */
  lemma {:induction false} PagesAreAnswers<T>(rs: seq<ApiReply<Page<T>>>, cursor: Option<string>, maxRetries: nat,
                                             pace: real, take: seq<T> -> Result<seq<T>>)
    ensures var l := PaginateFrom(rs, cursor, maxRetries, pace, take);
      l.pages == Answers(rs[..l.used])
    decreases |rs|
  {
    var call := InvokeFrom(rs, 0, maxRetries);
    var l := PaginateFrom(rs, cursor, maxRetries, pace, take);
    InvokeAnswers(rs, 0, maxRetries);
    if call.outcome.Done? && take(call.outcome.value.items).Ok? && NextCursor(call.outcome.value).Some? {
      var page := call.outcome.value;
      var rest := PaginateFrom(rs[call.used..], NextCursor(page), maxRetries, pace, take);
      PagesAreAnswers(rs[call.used..], NextCursor(page), maxRetries, pace, take);
      PageThenRest(rs, cursor, maxRetries, pace, take, page, take(page.items).value);
      assert l.pages == [page] + rest.pages && l.used == call.used + rest.used;
      AnswersSplit(rs, call.used, rest.used);
    } else {
      LastPage(rs, cursor, maxRetries, pace, take);
    }
  }

  /** The cursors of a listing that started from `cursor`: the first is
      that one; each later one is the next cursor of the page before it;
      one call per page, plus the call that failed, if any; a finished
      listing ends on a page with no next cursor. */
  predicate CursorsChained<T>(l: Listing<T>, cursor: Option<string>) {
    && 1 <= |l.cursors| && l.cursors[0] == cursor
    && |l.pages| <= |l.cursors| <= |l.pages| + 1
    && (forall k :: 0 <= k < |l.cursors| - 1 ==>
          k < |l.pages| && NextCursor(l.pages[k]).Some? && l.cursors[k + 1] == NextCursor(l.pages[k]))
    && (l.outcome.Done? ==> |l.cursors| == |l.pages| && NextCursor(l.pages[|l.pages| - 1]).None?)
  }

  /** A page with a next cursor, followed by a listing chained from that
      cursor, is chained. */
  lemma {:induction false} CursorsChainedCons<T>(l: Listing<T>, rest: Listing<T>, page: Page<T>, cursor: Option<string>)
    requires NextCursor(page).Some? && CursorsChained(rest, NextCursor(page))
    requires l.pages == [page] + rest.pages && l.cursors == [cursor] + rest.cursors
    requires l.outcome.Done? ==> rest.outcome.Done?
    ensures CursorsChained(l, cursor)
  {
    forall k | 0 <= k < |l.cursors| - 1
      ensures k < |l.pages| && NextCursor(l.pages[k]).Some? && l.cursors[k + 1] == NextCursor(l.pages[k])
    {
      if k > 0 {
        assert l.pages[k] == rest.pages[k - 1];
        assert l.cursors[k + 1] == rest.cursors[k];
      }
    }
    if l.outcome.Done? {
      assert l.pages[|l.pages| - 1] == rest.pages[|rest.pages| - 1];
    }
  }

  /** The cursors the pagination loop sends are chained. */
  lemma {:induction false} ListingCursors<T>(rs: seq<ApiReply<Page<T>>>, cursor: Option<string>, maxRetries: nat,
                                            pace: real, take: seq<T> -> Result<seq<T>>)
    ensures CursorsChained(PaginateFrom(rs, cursor, maxRetries, pace, take), cursor)
    decreases |rs|
  {
    var call := InvokeFrom(rs, 0, maxRetries);
    if call.outcome.Done? && take(call.outcome.value.items).Ok? && NextCursor(call.outcome.value).Some? {
      var page := call.outcome.value;
      var rest := PaginateFrom(rs[call.used..], NextCursor(page), maxRetries, pace, take);
      ListingCursors(rs[call.used..], NextCursor(page), maxRetries, pace, take);
      PageThenRest(rs, cursor, maxRetries, pace, take, page, take(page.items).value);
      CursorsChainedCons(PaginateFrom(rs, cursor, maxRetries, pace, take), rest, page, cursor);
    } else {
      LastPage(rs, cursor, maxRetries, pace, take);
    }
  }

  /** The kept items of every page, concatenated in order; the first page
      whose items cannot be taken fails the whole. */
  function TakeAll<T>(pages: seq<Page<T>>, take: seq<T> -> Result<seq<T>>): Result<seq<T>> {
    if pages == [] then Ok([])
    else match take(pages[0].items)
      case Err(f) => Err(f)
      case Ok(kept) =>
        match TakeAll(pages[1..], take)
        case Err(f) => Err(f)
        case Ok(more) => Ok(kept + more)
  }

  /** The items of every page, concatenated in order. */
  function Flatten<T>(pages: seq<Page<T>>): seq<T> {
    if pages == [] then [] else pages[0].items + Flatten(pages[1..])
  }

  lemma {:induction false} TakeAllKeep<T>(pages: seq<Page<T>>)
    ensures TakeAll(pages, Keep) == Ok(Flatten(pages))
    decreases |pages|
  {
    if pages != [] {
      TakeAllKeep(pages[1..]);
    }
  }

  /** A finished listing is the concatenation of its pages' kept items, in
      request order, without deduplication; it slept once per consumed
      answer (one backoff per throttled answer, one pacing interval per
      page, the last page included); a failed one once less, a pending one
      once per answer. */
  lemma {:induction false} ListingIsConcatenation<T>(rs: seq<ApiReply<Page<T>>>, cursor: Option<string>, maxRetries: nat,
                                                    pace: real, take: seq<T> -> Result<seq<T>>)
    ensures var l := PaginateFrom(rs, cursor, maxRetries, pace, take);
      && (l.outcome.Done? ==> TakeAll(l.pages, take) == Ok(l.outcome.value))
      && (l.outcome.Done? ==> |l.sleeps| == l.used)
      && (l.outcome.Failed? ==> |l.sleeps| == l.used - 1)
      && (l.outcome.Pending? ==> |l.sleeps| == l.used)
    decreases |rs|
  {
    var call := InvokeFrom(rs, 0, maxRetries);
    InvokeWaits(rs, 0, maxRetries);
    if call.outcome.Done? && take(call.outcome.value.items).Ok? && NextCursor(call.outcome.value).Some? {
      var page := call.outcome.value;
      var rest := PaginateFrom(rs[call.used..], NextCursor(page), maxRetries, pace, take);
      ListingIsConcatenation(rs[call.used..], NextCursor(page), maxRetries, pace, take);
      var l := PaginateFrom(rs, cursor, maxRetries, pace, take);
      if l.outcome.Done? {
        assert l.pages[1..] == rest.pages;
      }
    } else if call.outcome.Done? && take(call.outcome.value.items).Ok? {
      var l := PaginateFrom(rs, cursor, maxRetries, pace, take);
      var kept := take(call.outcome.value.items).value;
      assert l.pages[1..] == [];
      assert kept + [] == kept;
    }
  }

  /** The retry number of the answer at `k`: how many throttled answers
      end there since the last successful one (0 for a successful one). */
  function Streak<T>(rs: seq<ApiReply<T>>, k: nat): nat
    requires k < |rs|
  {
    if rs[k].Answer? then 0 else 1 + (if k == 0 then 0 else Streak(rs, k - 1))
  }

  /** A run of errors from the start: the retry number is the position. */
  lemma {:induction false} StreakFromStart<T>(rs: seq<ApiReply<T>>, k: nat)
    requires k < |rs| && forall j :: 0 <= j <= k ==> rs[j].SlackError?
    ensures Streak(rs, k) == k + 1
  {
    if k > 0 {
      StreakFromStart(rs, k - 1);
    }
  }

  /** Past a successful answer, retry numbers are those of the rest. */
  lemma {:induction false} StreakAfterAnswer<T>(rs: seq<ApiReply<T>>, m: nat, j: nat)
    requires 0 < m && m + j < |rs| && rs[m - 1].Answer?
    ensures Streak(rs, m + j) == Streak(rs[m..], j)
  {
    if j > 0 {
      StreakAfterAnswer(rs, m, j - 1);
    }
  }

  /** Every sleep of `sleeps` follows the answer at the same position: a
      successful answer is followed by the pacing interval, any other is a
      throttled answer followed by the backoff of its retry number. */
  predicate SleepsFollow<T>(rs: seq<ApiReply<T>>, sleeps: seq<real>, pace: real) {
    forall k :: 0 <= k < |sleeps| ==> SleepAt(rs, sleeps, pace, k)
  }

  /** The sleep at `k` follows the answer at `k`. */
  predicate SleepAt<T>(rs: seq<ApiReply<T>>, sleeps: seq<real>, pace: real, k: nat) {
    && k < |sleeps| && k < |rs|
    && (rs[k].Answer? ==> sleeps[k] == pace)
    && (rs[k].SlackError? ==> IsRateLimited(rs[k]) && sleeps[k] == ApiBackoff(ReplyHint(rs[k]), Streak(rs, k)))
  }

  /** A successful call ends on its answer, right after its last sleep. */
  lemma {:induction false} CallEndsOnAnswer<T>(rs: seq<ApiReply<T>>, maxRetries: nat)
    ensures var call := InvokeFrom(rs, 0, maxRetries);
      call.outcome.Done? ==> |call.waits| == call.used - 1 && rs[call.used - 1].Answer?
  {
    InvokeWaits(rs, 0, maxRetries);
    InvokeLastReply(rs, 0, maxRetries);
  }

  /** The sleeps of one call follow its answers. */
  lemma {:induction false} CallSleeps<T>(rs: seq<ApiReply<T>>, maxRetries: nat, pace: real)
    ensures SleepsFollow(rs, InvokeFrom(rs, 0, maxRetries).waits, pace)
  {
    var waits := InvokeFrom(rs, 0, maxRetries).waits;
    InvokeWaits(rs, 0, maxRetries);
    forall i | 0 <= i < |waits|
      ensures SleepAt(rs, waits, pace, i)
    {
      StreakFromStart(rs, i);
    }
  }

  /** A call's sleeps, the pacing interval after its page, then the sleeps
      of the listing on the answers after that page. */
  lemma {:induction false} SleepsFollowJoin<T>(rs: seq<ApiReply<T>>, m: nat, waits: seq<real>, rest: seq<real>, pace: real)
    requires 0 < m <= |rs| && rs[m - 1].Answer? && |waits| == m - 1
    requires SleepsFollow(rs, waits, pace) && SleepsFollow(rs[m..], rest, pace)
    ensures SleepsFollow(rs, waits + [pace] + rest, pace)
  {
    var all := waits + [pace] + rest;
    forall k | 0 <= k < |all|
      ensures SleepAt(rs, all, pace, k)
    {
      if k < m - 1 {
        assert SleepAt(rs, waits, pace, k);
        assert all[k] == waits[k];
      } else if k == m - 1 {
        assert all[k] == pace;
      } else {
        assert SleepAt(rs[m..], rest, pace, k - m);
        assert all[k] == rest[k - m];
        assert rs[k] == rs[m..][k - m];
        StreakAfterAnswer(rs, m, k - m);
      }
    }
  }

  /** Every sleep of a listing follows the answer at its position: the
      pacing interval after each page, the last page included, and the
      backoff of its retry number after each throttled answer. */
  lemma {:induction false} ListingSleeps<T>(rs: seq<ApiReply<Page<T>>>, cursor: Option<string>, maxRetries: nat,
                                           pace: real, take: seq<T> -> Result<seq<T>>)
    ensures SleepsFollow(rs, PaginateFrom(rs, cursor, maxRetries, pace, take).sleeps, pace)
    decreases |rs|
  {
    var call := InvokeFrom(rs, 0, maxRetries);
    CallEndsOnAnswer(rs, maxRetries);
    CallSleeps(rs, maxRetries, pace);
    if call.outcome.Done? && take(call.outcome.value.items).Ok? {
      var page := call.outcome.value;
      var m := call.used;
      if NextCursor(page).Some? {
        var rest := PaginateFrom(rs[m..], NextCursor(page), maxRetries, pace, take);
        ListingSleeps(rs[m..], NextCursor(page), maxRetries, pace, take);
        PageThenRest(rs, cursor, maxRetries, pace, take, page, take(page.items).value);
        SleepsFollowJoin(rs, m, call.waits, rest.sleeps, pace);
      } else {
        LastPage(rs, cursor, maxRetries, pace, take);
        SleepsFollowJoin(rs, m, call.waits, [], pace);
        assert call.waits + [pace] + [] == call.waits + [pace];
      }
    } else {
      LastPage(rs, cursor, maxRetries, pace, take);
    }
  }

  /** Two pages, the first naming cursor "c1" and the second an empty one:
      two calls, the second with "c1", all items in order, and a pacing
      sleep after each page. */
  lemma TwoPageScenario<T>(first: seq<T>, second: seq<T>, pace: real)
    ensures var rs := [Answer(Page(first, Some(ResponseMetadata(Some("c1"))))),
                       Answer(Page(second, Some(ResponseMetadata(Some("")))))];
      var l := PaginateFrom(rs, None, 0, pace, Keep);
      && l.outcome == Done(first + second)
      && l.cursors == [None, Some("c1")]
      && l.sleeps == [pace, pace]
      && l.used == 2
  {
    var p1 := Page(first, Some(ResponseMetadata(Some("c1"))));
    var p2 := Page(second, Some(ResponseMetadata(Some(""))));
    var rs := [Answer(p1), Answer(p2)];
    assert InvokeFrom(rs, 0, 0) == Invocation(Done(p1), [], 1);
    assert rs[1..] == [Answer(p2)];
    assert InvokeFrom(rs[1..], 0, 0) == Invocation(Done(p2), [], 1);
    assert NextCursor(p1) == Some("c1");
    assert PaginateFrom(rs[1..], Some("c1"), 0, pace, Keep) == Listing(Done(second), [p2], [Some("c1")], [pace], 1);
  }
}
