/**
 * `get_messages`: the channel's history, page by page, then the replies of
 * every thread root, each thread paginated from a fresh cursor, with the
 * root's own echo dropped from every replies page.
 *
 * The source walks the roots with a generator over the very list it extends
 * with replies. `ReconcileThreads` keeps that shape (an index into a
 * growing sequence) and proves that it comes to the same as walking the
 * roots of the history alone, because no appended reply is a root.
 */
module Messages {
  import opened Remote
  import opened Records
  import opened Retry
  import opened Pagination

  /** A thread root: `thread_ts` is present and equals `ts`. */
  predicate IsRoot(m: Message) {
    m.threadTs == Some(m.ts)
  }

  /** The roots of a message list, in order. */
  function RootsOf(ms: seq<Message>): seq<Message> {
    if ms == [] then [] else (if IsRoot(ms[0]) then [ms[0]] else []) + RootsOf(ms[1..])
  }

  lemma {:induction false} RootsOfAppend(a: seq<Message>, b: seq<Message>)
    ensures RootsOf(a + b) == RootsOf(a) + RootsOf(b)
    decreases |a|
  {
    if a == [] {
      assert a + b == b;
    } else {
      assert (a + b)[0] == a[0];
      assert (a + b)[1..] == a[1..] + b;
      RootsOfAppend(a[1..], b);
    }
  }

  /** A list with no root has no roots to add. */
  lemma {:induction false} RootsOfRootless(ms: seq<Message>)
    requires forall k :: 0 <= k < |ms| ==> !IsRoot(ms[k])
    ensures RootsOf(ms) == []
    decreases |ms|
  {
    if ms != [] {
      RootsOfRootless(ms[1..]);
    }
  }

  /** The `thread_ts` of every root, in order: the threads whose replies
      are fetched. */
  function ThreadKeys(ms: seq<Message>): seq<string> {
    if ms == [] then []
    else (if IsRoot(ms[0]) then [ms[0].threadTs.value] else []) + ThreadKeys(ms[1..])
  }

  lemma {:induction false} ThreadKeysAppend(a: seq<Message>, b: seq<Message>)
    ensures ThreadKeys(a + b) == ThreadKeys(a) + ThreadKeys(b)
    decreases |a|
  {
    if a == [] {
      assert a + b == b;
    } else {
      assert (a + b)[0] == a[0];
      assert (a + b)[1..] == a[1..] + b;
      ThreadKeysAppend(a[1..], b);
    }
  }

  /** The filter of a replies page: drop the messages whose `ts` equals
      their `thread_ts` (the root, already in the history); a message with
      no `thread_ts` raises a KeyError. */
  function DropEcho(items: seq<Message>): (r: Result<seq<Message>>)
    ensures r.Ok? <==> forall k :: 0 <= k < |items| ==> items[k].threadTs.Some?
    ensures r.Err? ==> r.failure == MissingKey("thread_ts")
    ensures r.Ok? ==> forall m :: m in r.value <==> m in items && !IsRoot(m)
    ensures r.Ok? ==> |r.value| == |items| - |RootsOf(items)|
    decreases |items|
  {
    if items == [] then Ok([])
    else if items[0].threadTs.None? then Err(MissingKey("thread_ts"))
    else match DropEcho(items[1..])
      case Err(f) => Err(f)
      case Ok(rest) => Ok((if items[0].ts != items[0].threadTs.value then [items[0]] else []) + rest)
  }

  /** One message of the page: it is either kept or dropped as a root. */
  lemma {:induction false} DropEchoStep(items: seq<Message>)
    requires items != [] && DropEcho(items).Ok?
    ensures DropEcho(items[1..]).Ok?
    ensures multiset(DropEcho(items).value) + multiset(RootsOf(items))
         == multiset{items[0]} + (multiset(DropEcho(items[1..]).value) + multiset(RootsOf(items[1..])))
  {
    var kept: seq<Message> := if IsRoot(items[0]) then [] else [items[0]];
    var dropped: seq<Message> := if IsRoot(items[0]) then [items[0]] else [];
    assert DropEcho(items).value == kept + DropEcho(items[1..]).value;
    assert RootsOf(items) == dropped + RootsOf(items[1..]);
    assert multiset(kept) + multiset(dropped) == multiset{items[0]};
  }

  /** The echo filter keeps every message that is not a root as often as it
      occurs: what it keeps and the roots it drops make up the page. */
  lemma {:induction false} DropEchoCounts(items: seq<Message>)
    ensures DropEcho(items).Ok? ==> multiset(DropEcho(items).value) + multiset(RootsOf(items)) == multiset(items)
    decreases |items|
  {
    if items != [] && DropEcho(items).Ok? {
      DropEchoStep(items);
      DropEchoCounts(items[1..]);
      assert items == [items[0]] + items[1..];
    }
  }

  /** What the echo filter keeps of a whole thread carries `thread_ts` and
      is never a root. */
  lemma {:induction false} TakenRepliesAreNotRoots(pages: seq<Page<Message>>)
    ensures TakeAll(pages, DropEcho).Ok? ==>
      forall m :: m in TakeAll(pages, DropEcho).value ==> m.threadTs.Some? && !IsRoot(m)
    decreases |pages|
  {
    if pages != [] {
      TakenRepliesAreNotRoots(pages[1..]);
      var first := DropEcho(pages[0].items);
      if first.Ok? {
        forall m | m in first.value ensures m.threadTs.Some? && !IsRoot(m) {
          var k :| 0 <= k < |pages[0].items| && pages[0].items[k] == m;
        }
      }
    }
  }

  /** The replies of one thread, paginated from no cursor with the echo
      filter applied to every page. */
  function ThreadListing(replies: seq<ApiReply<Page<Message>>>, maxRetries: nat, pace: real): Listing<Message> {
    PaginateFrom(replies, None, maxRetries, pace, DropEcho)
  }

  /** A fetched thread carries `thread_ts` on every reply and holds no root. */
  lemma ThreadHasNoRoots(replies: seq<ApiReply<Page<Message>>>, maxRetries: nat, pace: real)
    ensures var o := ThreadListing(replies, maxRetries, pace).outcome;
      o.Done? ==> forall k :: 0 <= k < |o.value| ==> o.value[k].threadTs.Some? && !IsRoot(o.value[k])
  {
    var l := ThreadListing(replies, maxRetries, pace);
    ListingIsConcatenation(replies, None, maxRetries, pace, DropEcho);
    TakenRepliesAreNotRoots(l.pages);
    if l.outcome.Done? {
      forall k | 0 <= k < |l.outcome.value|
        ensures l.outcome.value[k].threadTs.Some? && !IsRoot(l.outcome.value[k])
      {
        assert l.outcome.value[k] in TakeAll(l.pages, DropEcho).value;
      }
    }
  }

  /** The replies of every root of `history`, in the order of the roots;
      the first thread that fails or is still pending decides the whole. */
  function ThreadReplies(history: seq<Message>, replies: string -> seq<ApiReply<Page<Message>>>,
                         maxRetries: nat, pace: real): Outcome<seq<Message>>
    decreases |history|
  {
    if history == [] then Done([])
    else if !IsRoot(history[0]) then ThreadReplies(history[1..], replies, maxRetries, pace)
    else match ThreadListing(replies(history[0].threadTs.value), maxRetries, pace).outcome
      case Done(thread) => Prefixed(thread, ThreadReplies(history[1..], replies, maxRetries, pace))
      case Failed(f) => Failed(f)
      case Pending => Pending
  }

  /** No message added by the threads is a root, and each carries `thread_ts`. */
  lemma {:induction false} ThreadRepliesHaveNoRoots(history: seq<Message>, replies: string -> seq<ApiReply<Page<Message>>>,
                                                     maxRetries: nat, pace: real)
    ensures var o := ThreadReplies(history, replies, maxRetries, pace);
      o.Done? ==> forall k :: 0 <= k < |o.value| ==> o.value[k].threadTs.Some? && !IsRoot(o.value[k])
    decreases |history|
  {
    if history != [] {
      ThreadRepliesHaveNoRoots(history[1..], replies, maxRetries, pace);
      if IsRoot(history[0]) {
        var thread := ThreadListing(replies(history[0].threadTs.value), maxRetries, pace).outcome;
        ThreadHasNoRoots(replies(history[0].threadTs.value), maxRetries, pace);
        var o := ThreadReplies(history, replies, maxRetries, pace);
        if o.Done? {
          var rest := ThreadReplies(history[1..], replies, maxRetries, pace);
          forall k | 0 <= k < |o.value|
            ensures o.value[k].threadTs.Some? && !IsRoot(o.value[k])
          {
            if k >= |thread.value| {
              assert o.value[k] == rest.value[k - |thread.value|];
            }
          }
        }
      }
    }
  }

  lemma PrefixedTwice(xs: seq<Message>, ys: seq<Message>, o: Outcome<seq<Message>>)
    ensures Prefixed(xs, Prefixed(ys, o)) == Prefixed(xs + ys, o)
  {
    if o.Done? {
      assert xs + (ys + o.value) == (xs + ys) + o.value;
    }
  }

  /** One step of the walk over the history: a non-root adds nothing; a
      root adds its thread, or stops the walk with its failure. */
  lemma {:induction false} ThreadRepliesStep(history: seq<Message>, i: nat, replies: string -> seq<ApiReply<Page<Message>>>,
                                             maxRetries: nat, pace: real)
    requires i < |history|
    ensures !IsRoot(history[i]) ==>
      ThreadReplies(history[i..], replies, maxRetries, pace) == ThreadReplies(history[i + 1..], replies, maxRetries, pace)
    ensures IsRoot(history[i]) ==>
      var thread := ThreadListing(replies(history[i].threadTs.value), maxRetries, pace).outcome;
      ThreadReplies(history[i..], replies, maxRetries, pace) ==
        if thread.Done? then Prefixed(thread.value, ThreadReplies(history[i + 1..], replies, maxRetries, pace)) else thread
    ensures ThreadKeys(history[..i + 1]) ==
      ThreadKeys(history[..i]) + (if IsRoot(history[i]) then [history[i].threadTs.value] else [])
  {
    assert history[i..][0] == history[i];
    assert history[i..][1..] == history[i + 1..];
    assert history[..i + 1] == history[..i] + [history[i]];
    ThreadKeysAppend(history[..i], [history[i]]);
    assert [history[i]][1..] == [];
  }

  /** The walk has reached the end of the history. */
  lemma ThreadRepliesEnd(history: seq<Message>, replies: string -> seq<ApiReply<Page<Message>>>,
                         maxRetries: nat, pace: real)
    ensures ThreadReplies(history[|history|..], replies, maxRetries, pace) == Done([])
    ensures history[..|history|] == history
  {
    assert history[|history|..] == [];
  }

  /** The thread loop of get_messages, over the list it extends: every root
      met, whether in the history or appended, has its replies fetched and
      appended. It ends with the history followed by the replies of the
      history's roots, each thread queried once, in order. */
  method ReconcileThreads(history: seq<Message>, replies: string -> seq<ApiReply<Page<Message>>>,
                          maxRetries: nat, pace: real)
    returns (outcome: Outcome<seq<Message>>, queried: seq<string>)
    ensures outcome == Prefixed(history, ThreadReplies(history, replies, maxRetries, pace))
    ensures outcome.Done? ==> queried == ThreadKeys(history)
  {
    ghost var goal := Prefixed(history, ThreadReplies(history, replies, maxRetries, pace));
    var messages := history;
    var i := 0;
    ghost var j := 0;
    queried := [];
    assert history[0..] == history;
    assert history[..0] == [];
    while i < |messages|
      invariant i <= |messages| && |history| <= |messages| && messages[..|history|] == history
      invariant j <= |history| && j == (if i < |history| then i else |history|)
      invariant forall k :: |history| <= k < |messages| ==> !IsRoot(messages[k])
      invariant goal == Prefixed(messages, ThreadReplies(history[j..], replies, maxRetries, pace))
      invariant queried == ThreadKeys(history[..j])
      decreases |history| - j, |messages| - i
    {
      var parentMessage := messages[i];
      if i < |history| {
        ThreadRepliesStep(history, i, replies, maxRetries, pace);
      }
      if IsRoot(parentMessage) {
        assert i < |history| && messages[..|history|][i] == parentMessage;
        queried := queried + [parentMessage.threadTs.value];
        var thread, _, _, _, _ := Paginate(replies(parentMessage.threadTs.value), maxRetries, pace, DropEcho);
        assert thread == ThreadListing(replies(history[i].threadTs.value), maxRetries, pace).outcome;
        match thread {
          case Done(kept) =>
            ThreadHasNoRoots(replies(parentMessage.threadTs.value), maxRetries, pace);
            PrefixedTwice(messages, kept, ThreadReplies(history[i + 1..], replies, maxRetries, pace));
            assert (messages + kept)[..|history|] == messages[..|history|];
            messages := messages + kept;
          case Failed(f) =>
            outcome := Failed(f);
            return;
          case Pending =>
            outcome := Pending;
            return;
        }
      }
      i := i + 1;
      if j < |history| {
        j := j + 1;
      }
    }
    ThreadRepliesEnd(history, replies, maxRetries, pace);
    assert messages + [] == messages;
    outcome := Done(messages);
  }

  /** get_messages, as a function of the oracles: the history of the
      channel, then its threads. */
  function ChannelMessages(history: seq<ApiReply<Page<Message>>>, replies: string -> seq<ApiReply<Page<Message>>>,
                           maxRetries: nat, pace: real): Outcome<seq<Message>>
  {
    match PaginateFrom(history, None, maxRetries, pace, Keep).outcome
    case Done(hs) => Prefixed(hs, ThreadReplies(hs, replies, maxRetries, pace))
    case Failed(f) => Failed(f)
    case Pending => Pending
  }

  /** get_messages: page through the history, then reconcile the threads. */
  method GetMessages(history: seq<ApiReply<Page<Message>>>, replies: string -> seq<ApiReply<Page<Message>>>,
                     maxRetries: nat, pace: real)
    returns (outcome: Outcome<seq<Message>>)
    ensures outcome == ChannelMessages(history, replies, maxRetries, pace)
  {
    var listed, _, _, _, _ := Paginate(history, maxRetries, pace, Keep);
    match listed
    case Done(messages) =>
      var queried;
      outcome, queried := ReconcileThreads(messages, replies, maxRetries, pace);
    case Failed(f) =>
      outcome := Failed(f);
    case Pending =>
      outcome := Pending;
  }

  /** The messages of a channel: its concatenated history pages first, then
      replies only; every root of the result is a root of the history, as
      many times as there (no echo of a root is added), and every added
      reply carries `thread_ts` different from its `ts`. */
  lemma ChannelMessagesShape(history: seq<ApiReply<Page<Message>>>, replies: string -> seq<ApiReply<Page<Message>>>,
                             maxRetries: nat, pace: real)
    ensures var l := PaginateFrom(history, None, maxRetries, pace, Keep);
      var o := ChannelMessages(history, replies, maxRetries, pace);
      o.Done? ==>
        && l.outcome.Done?
        && var hs := Flatten(l.pages);
           && |hs| <= |o.value| && o.value[..|hs|] == hs
           && RootsOf(o.value) == RootsOf(hs)
           && (forall k :: |hs| <= k < |o.value| ==> o.value[k].threadTs.Some? && !IsRoot(o.value[k]))
  {
    var l := PaginateFrom(history, None, maxRetries, pace, Keep);
    var o := ChannelMessages(history, replies, maxRetries, pace);
    ListingIsConcatenation(history, None, maxRetries, pace, Keep);
    TakeAllKeep(l.pages);
    if o.Done? {
      var hs := Flatten(l.pages);
      var t := ThreadReplies(hs, replies, maxRetries, pace);
      ThreadRepliesHaveNoRoots(hs, replies, maxRetries, pace);
      assert o.value == hs + t.value;
      assert o.value[..|hs|] == hs;
      forall k | |hs| <= k < |o.value|
        ensures o.value[k].threadTs.Some? && !IsRoot(o.value[k])
      {
        assert o.value[k] == t.value[k - |hs|];
      }
      RootsOfAppend(hs, t.value);
      RootsOfRootless(t.value);
      assert RootsOf(hs) + [] == RootsOf(hs);
    }
  }
}
