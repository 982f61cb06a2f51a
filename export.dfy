/**
 * `main`: one export run under the timestamp `now`. The users and the
 * channel list are fetched (or, when the progress record says they were,
 * loaded from the run's saved lists); then every channel not yet recorded
 * as processed has its messages fetched, sorted and saved and its files
 * downloaded, after which its id is appended to the progress record. Any
 * exception ends the run with the record as last saved; a run that gets
 * through every channel removes the record.
 */
module Export {
  import opened Remote
  import opened Records
  import opened Retry
  import opened Pagination
  import opened Channels
  import opened Messages
  import opened Sorting
  import opened Files
  import opened Checkpoints

  /** The settings of `Const` that change what a run does. */
  datatype Config = Config(maxRetries: nat, accessWait: real, conversationsWait: real, isMarketplace: bool)

  /** The settings the exporter ships with: unlimited rate-limit retries, a
      general wait of 2 s, 60 s for history and replies, not a Marketplace
      app. */
  const Defaults := Config(0, 2.0, 60.0, false)

  /** The pacing sleep after a history or replies page. */
  function ConversationsWait(cfg: Config): real {
    if cfg.isMarketplace then cfg.accessWait else cfg.conversationsWait
  }

  /** With the shipped settings, history and replies pages are paced by
      60 s and the other calls by 2 s, and a throttled call is retried
      without limit: throttling never fails a call. */
  lemma ShippedSettings<T>(rs: seq<ApiReply<T>>)
    ensures ConversationsWait(Defaults) == 60.0 && Defaults.accessWait == 2.0
    ensures InvokeFrom(rs, 0, Defaults.maxRetries).outcome != Failed(SlackApiError(RateLimitedError))
  {
    InvokeUnlimited(rs, 0);
  }

  /** The remote, as the replies each call gets: `history` and `replies`
      per channel id (and thread), `downloads` per `url_private`. */
  datatype Workspace = Workspace(
    usersList: seq<ApiReply<seq<User>>>,
    conversationsList: seq<ApiReply<Page<Channel>>>,
    history: string -> seq<ApiReply<Page<Message>>>,
    replies: string -> string -> seq<ApiReply<Page<Message>>>,
    downloads: string -> seq<HttpReply>)

  /** How a run ended: it got through, it raised, or one call was still
      retrying when its replies ran out. */
  datatype Ending = Finished | Raised(failure: Failure) | StillRetrying

  /** The ending that an outcome other than success imposes. */
  function Stop<T>(o: Outcome<T>): (e: Ending)
    requires !o.Done?
    ensures e.Raised? <==> o.Failed?
    ensures e.Raised? ==> e.failure == o.failure
    ensures !e.Finished?
  {
    if o.Failed? then Raised(o.failure) else StillRetrying
  }

  /** The user list of a run: fetched, or loaded from the run's saved list. */
  function UsersFor(init: Progress, saved: map<string, seq<User>>, now: string, ws: Workspace, cfg: Config)
    : Outcome<seq<User>>
  {
    if !init.usersFetched then InvokeFrom(ws.usersList, 0, cfg.maxRetries).outcome
    else if now in saved then Done(saved[now])
    else Failed(FileMissing("users.json"))
  }

  /** The channel list of a run: fetched and named, or loaded. */
  function ChannelsFor(init: Progress, saved: map<string, seq<Channel>>, now: string, users: seq<User>,
                       ws: Workspace, cfg: Config): Outcome<seq<Channel>>
  {
    if !init.channelsFetched then AccessibleChannels(ws.conversationsList, users, cfg.maxRetries, cfg.accessWait)
    else if now in saved then Done(saved[now])
    else Failed(FileMissing("channels.json"))
  }

  /** The channel list a run walks, once its users are known. */
  function RunChannels(init: Progress, users0: map<string, seq<User>>, channels0: map<string, seq<Channel>>,
                       now: string, ws: Workspace, cfg: Config): Outcome<seq<Channel>>
  {
    match UsersFor(init, users0, now, ws, cfg)
    case Done(users) => ChannelsFor(init, channels0, now, users, ws, cfg)
    case Failed(f) => Failed(f)
    case Pending => Pending
  }

  /** The channels the loop exports, in order: those whose id is not
      processed yet, where each exported id counts as processed for the
      channels after it. */
  function ToProcess(cs: seq<Channel>, processed: seq<string>): seq<Channel>
    decreases |cs|
  {
    if cs == [] then []
    else if cs[0].id in processed then ToProcess(cs[1..], processed)
    else [cs[0]] + ToProcess(cs[1..], processed + [cs[0].id])
  }

  /** The ids of a list of channels. */
  function Ids(cs: seq<Channel>): seq<string>
    decreases |cs|
  {
    if cs == [] then [] else [cs[0].id] + Ids(cs[1..])
  }

  lemma {:induction false} IdsAppend(a: seq<Channel>, b: seq<Channel>)
    ensures Ids(a + b) == Ids(a) + Ids(b)
    decreases |a|
  {
    if a == [] {
      assert a + b == b;
    } else {
      assert (a + b)[1..] == a[1..] + b;
      IdsAppend(a[1..], b);
    }
  }

  /** Every channel exported is one of the list and was not processed
      before. */
  lemma {:induction false} ToProcessFresh(cs: seq<Channel>, processed: seq<string>)
    ensures forall c :: c in ToProcess(cs, processed) ==> c in cs && c.id !in processed
    decreases |cs|
  {
    if cs != [] {
      if cs[0].id in processed {
        ToProcessFresh(cs[1..], processed);
      } else {
        ToProcessFresh(cs[1..], processed + [cs[0].id]);
        assert ToProcess(cs, processed) == [cs[0]] + ToProcess(cs[1..], processed + [cs[0].id]);
      }
    }
  }

  /** No two channels of the list share an id. */
  predicate DistinctIds(cs: seq<Channel>) {
    forall i, j :: 0 <= i < j < |cs| ==> cs[i].id != cs[j].id
  }

  /** No id is exported twice, even when the list repeats it. */
  lemma {:induction false} ToProcessDistinct(cs: seq<Channel>, processed: seq<string>)
    ensures DistinctIds(ToProcess(cs, processed))
    decreases |cs|
  {
    if cs != [] {
      if cs[0].id in processed {
        ToProcessDistinct(cs[1..], processed);
        assert ToProcess(cs, processed) == ToProcess(cs[1..], processed);
      } else {
        var p := processed + [cs[0].id];
        var rest := ToProcess(cs[1..], p);
        var t := ToProcess(cs, processed);
        ToProcessDistinct(cs[1..], p);
        ToProcessFresh(cs[1..], p);
        assert t == [cs[0]] + rest;
        forall i, j | 0 <= i < j < |t| ensures t[i].id != t[j].id {
          assert t[j] == rest[j - 1] && rest[j - 1] in rest;
          if i > 0 {
            assert t[i] == rest[i - 1];
            assert rest[i - 1].id != rest[j - 1].id;
          } else {
            assert t[0] == cs[0] && cs[0].id in p;
            assert rest[j - 1].id !in p;
          }
        }
      }
    }
  }

  lemma {:induction false} IdsMembers(cs: seq<Channel>, c: Channel)
    requires c in cs
    ensures c.id in Ids(cs)
    decreases |cs|
  {
    if cs[0] != c {
      IdsMembers(cs[1..], c);
    }
  }

  /** Every channel of the list ends up processed, before or now. */
  lemma {:induction false} ToProcessCovers(cs: seq<Channel>, processed: seq<string>)
    ensures forall c :: c in cs ==> c.id in processed + Ids(ToProcess(cs, processed))
    decreases |cs|
  {
    if cs != [] {
      var t := ToProcess(cs, processed);
      if cs[0].id in processed {
        ToProcessCovers(cs[1..], processed);
        forall c | c in cs ensures c.id in processed + Ids(t) {
          if c != cs[0] {
            assert c in cs[1..];
          }
        }
      } else {
        var p := processed + [cs[0].id];
        var rest := ToProcess(cs[1..], p);
        ToProcessCovers(cs[1..], p);
        assert t == [cs[0]] + rest;
        assert Ids(t) == [cs[0].id] + Ids(rest) by {
          assert t[1..] == rest;
        }
        assert p + Ids(rest) == processed + Ids(t);
        forall c | c in cs ensures c.id in processed + Ids(t) {
          if c != cs[0] {
            assert c in cs[1..];
          }
        }
      }
    }
  }

  lemma {:induction false} ConsSlices<T>(x: T, s: seq<T>, n: nat)
    requires 0 < n <= |s| + 1
    ensures ([x] + s)[..n] == [x] + s[..n - 1]
    ensures ([x] + s)[n..] == s[n - 1..]
  {
  }

  /** The ids of a prefix of `[c] + rest`, after `processed`. */
  lemma {:induction false} IdsOfCons(processed: seq<string>, c: Channel, rest: seq<Channel>, n: nat)
    requires 0 < n <= |rest| + 1
    ensures processed + Ids(([c] + rest)[..n]) == processed + [c.id] + Ids(rest[..n - 1])
  {
    ConsSlices(c, rest, n);
    IdsAppend([c], rest[..n - 1]);
    assert Ids([c]) == [c.id];
    var ids := Ids(rest[..n - 1]);
    assert processed + ([c.id] + ids) == processed + [c.id] + ids;
  }

  /** A channel that is exported first, then recorded as processed, is
      skipped, and the walk goes on with its id recorded. */
  lemma {:induction false} ResumePastFirst(cs: seq<Channel>, processed: seq<string>, n: nat)
    requires cs != [] && cs[0].id !in processed && 0 < n <= |ToProcess(cs, processed)|
    ensures var p := processed + [cs[0].id];
      && n - 1 <= |ToProcess(cs[1..], p)|
      && processed + Ids(ToProcess(cs, processed)[..n]) == p + Ids(ToProcess(cs[1..], p)[..n - 1])
      && ToProcess(cs, processed)[n..] == ToProcess(cs[1..], p)[n - 1..]
  {
    var c := cs[0];
    var rest := ToProcess(cs[1..], processed + [c.id]);
    assert ToProcess(cs, processed) == [c] + rest;
    ConsSlices(c, rest, n);
    IdsOfCons(processed, c, rest, n);
  }

  /** Resuming is continuing: once the first `n` channels to export are
      recorded as processed, the channels left to export are the rest. */
  lemma {:induction false} ResumeContinues(cs: seq<Channel>, processed: seq<string>, n: nat)
    requires n <= |ToProcess(cs, processed)|
    ensures ToProcess(cs, processed + Ids(ToProcess(cs, processed)[..n])) == ToProcess(cs, processed)[n..]
    decreases |cs|
  {
    if n == 0 {
      assert processed + Ids(ToProcess(cs, processed)[..0]) == processed;
    } else if cs[0].id in processed {
      ResumeContinues(cs[1..], processed, n);
    } else {
      var p := processed + [cs[0].id];
      ResumePastFirst(cs, processed, n);
      ResumeContinues(cs[1..], p, n - 1);
      assert cs[0].id in p + Ids(ToProcess(cs[1..], p)[..n - 1]);
    }
  }

  /** The channels a run exports, or why it stops before the loop. */
  function Plan(init: Progress, users0: map<string, seq<User>>, channels0: map<string, seq<Channel>>,
                now: string, ws: Workspace, cfg: Config): Outcome<seq<Channel>>
  {
    match RunChannels(init, users0, channels0, now, ws, cfg)
    case Done(cs) => Done(ToProcess(cs, init.processedChannels))
    case Failed(f) => Failed(f)
    case Pending => Pending
  }

  /** What is saved for one channel. */
  datatype ChannelExport = ChannelExport(channel: Channel, messages: seq<Message>, attempts: seq<Attempt>, sleeps: seq<real>)

  /** The messages of a channel, as get_messages returns them. */
  function Fetched(c: Channel, ws: Workspace, cfg: Config): Outcome<seq<Message>> {
    ChannelMessages(ws.history(c.id), ws.replies(c.id), cfg.maxRetries, ConversationsWait(cfg))
  }

  /** A channel saved in full: its messages as fetched, sorted by `ts`, and
      every live file attempted to its end. */
  predicate Exported(e: ChannelExport, ws: Workspace, cfg: Config) {
    && Fetched(e.channel, ws, cfg).Done?
    && e.messages == SortMessages(Fetched(e.channel, ws, cfg).value)
    && Complete(e.attempts, e.sleeps, Eligible(e.messages), ws.downloads, cfg.maxRetries, cfg.accessWait)
  }

  /** Some call made for channel `c` was still retrying when its replies
      ran out: one for its messages, or the download of one of the files
      its sorted messages carry. */
  predicate Stalls(c: Channel, ws: Workspace, cfg: Config) {
    || Fetched(c, ws, cfg).Pending?
    || (&& Fetched(c, ws, cfg).Done?
        && exists a :: a in Eligible(SortMessages(Fetched(c, ws, cfg).value))
                       && DownloadFrom(ws.downloads(a.urlPrivate), 0, cfg.maxRetries).outcome.Pending?)
  }

  /** Why a run stopped at channel `c`: an exception is the one its messages
      raised, and a run still retrying has a call for `c` still retrying. */
  predicate StoppedOn(c: Channel, ending: Ending, ws: Workspace, cfg: Config) {
    && (ending.Raised? ==> Fetched(c, ws, cfg) == Failed(ending.failure))
    && (ending == StillRetrying ==> Stalls(c, ws, cfg))
  }

  /** The channels of a list of exports. */
  function ChannelsOf(es: seq<ChannelExport>): (r: seq<Channel>)
    ensures |r| == |es|
    decreases |es|
  {
    if es == [] then [] else [es[0].channel] + ChannelsOf(es[1..])
  }

  lemma {:induction false} ChannelsOfAppend(a: seq<ChannelExport>, b: seq<ChannelExport>)
    ensures ChannelsOf(a + b) == ChannelsOf(a) + ChannelsOf(b)
    decreases |a|
  {
    if a == [] {
      assert a + b == b;
    } else {
      calc {
        ChannelsOf(a + b);
        { assert (a + b)[0] == a[0] && (a + b)[1..] == a[1..] + b; }
        [a[0].channel] + ChannelsOf(a[1..] + b);
        { ChannelsOfAppend(a[1..], b); }
        [a[0].channel] + (ChannelsOf(a[1..]) + ChannelsOf(b));
        ([a[0].channel] + ChannelsOf(a[1..])) + ChannelsOf(b);
      }
    }
  }

  /** The body of main's try block for one channel: fetch, sort, save the
      messages, save the files. */
  method ExportChannel(channel: Channel, ws: Workspace, cfg: Config) returns (ending: Ending, e: ChannelExport)
    ensures e.channel == channel
    ensures ending == Finished ==> Exported(e, ws, cfg)
    ensures !Fetched(channel, ws, cfg).Done? ==> ending == Stop(Fetched(channel, ws, cfg))
    ensures Fetched(channel, ws, cfg).Done? ==> !ending.Raised?
    ensures Fetched(channel, ws, cfg).Done? ==> e.messages == SortMessages(Fetched(channel, ws, cfg).value)
    ensures Fetched(channel, ws, cfg).Done? && ending != Finished ==>
      Interrupted(e.attempts, e.sleeps, Eligible(e.messages), ws.downloads, cfg.maxRetries, cfg.accessWait)
    ensures ending == StillRetrying <==> Stalls(channel, ws, cfg)
  {
    var fetched := GetMessages(ws.history(channel.id), ws.replies(channel.id), cfg.maxRetries, ConversationsWait(cfg));
    if !fetched.Done? {
      ending, e := Stop(fetched), ChannelExport(channel, [], [], []);
      return;
    }
    var messages := SortMessages(fetched.value);
    var attempts, sleeps, finished := SaveFiles(messages, ws.downloads, cfg.maxRetries, cfg.accessWait);
    e := ChannelExport(channel, messages, attempts, sleeps);
    ending := if finished then Finished else StillRetrying;
    if finished {
      forall a | a in Eligible(messages)
        ensures !DownloadFrom(ws.downloads(a.urlPrivate), 0, cfg.maxRetries).outcome.Pending?
      {
        CompleteSettles(attempts, sleeps, Eligible(messages), ws.downloads, cfg.maxRetries, cfg.accessWait, a);
      }
    } else {
      InterruptedStalls(attempts, sleeps, Eligible(messages), ws.downloads, cfg.maxRetries, cfg.accessWait);
    }
  }

  /** The users phase of main. */
  method ObtainUsers(dir: ExportDirectory, now: string, init: Progress, ws: Workspace, cfg: Config)
    returns (users: Outcome<seq<User>>)
    modifies dir
    ensures users == UsersFor(init, old(dir.users), now, ws, cfg)
    ensures dir.channels == old(dir.channels)
    ensures !init.usersFetched && users.Done? ==>
      && dir.progress == old(dir.progress)[now := Progress(true, false, [])]
      && dir.users == old(dir.users)[now := users.value]
    ensures init.usersFetched || !users.Done? ==> dir.progress == old(dir.progress) && dir.users == old(dir.users)
  {
    if !init.usersFetched {
      var sleeps, used;
      users, sleeps, used := GetUsers(ws.usersList, cfg.maxRetries, cfg.accessWait);
      if users.Done? {
        dir.SaveUsers(now, users.value);
        dir.SaveProgress(now, Progress(true, false, []));
      }
    } else {
      var loaded := dir.LoadUsers(now);
      users := if loaded.Ok? then Done(loaded.value) else Failed(loaded.failure);
    }
  }

  /** The channels phase of main. */
  method ObtainChannels(dir: ExportDirectory, now: string, init: Progress, users: seq<User>, ws: Workspace, cfg: Config)
    returns (channels: Outcome<seq<Channel>>)
    modifies dir
    ensures channels == ChannelsFor(init, old(dir.channels), now, users, ws, cfg)
    ensures dir.users == old(dir.users)
    ensures !init.channelsFetched && channels.Done? ==>
      && dir.progress == old(dir.progress)[now := Progress(true, true, [])]
      && dir.channels == old(dir.channels)[now := channels.value]
    ensures init.channelsFetched || !channels.Done? ==> dir.progress == old(dir.progress) && dir.channels == old(dir.channels)
  {
    if !init.channelsFetched {
      channels := GetAccessibleChannels(ws.conversationsList, users, cfg.maxRetries, cfg.accessWait);
      if channels.Done? {
        dir.SaveChannels(now, channels.value);
        dir.SaveProgress(now, Progress(true, true, []));
      }
    } else {
      var loaded := dir.LoadChannels(now);
      channels := if loaded.Ok? then Done(loaded.value) else Failed(loaded.failure);
    }
  }

  /** One skipped channel: an id already processed drops out of the plan. */
  lemma {:induction false} ToProcessSkip(cs: seq<Channel>, k: nat, processed: seq<string>)
    requires k < |cs| && cs[k].id in processed
    ensures ToProcess(cs[k..], processed) == ToProcess(cs[k + 1..], processed)
  {
    assert cs[k..][0] == cs[k] && cs[k..][1..] == cs[k + 1..];
  }

  /** One exported channel: a fresh id heads the plan, and counts as
      processed for the channels after it. */
  lemma {:induction false} ToProcessTake(cs: seq<Channel>, k: nat, processed: seq<string>)
    requires k < |cs| && cs[k].id !in processed
    ensures ToProcess(cs[k..], processed) == [cs[k]] + ToProcess(cs[k + 1..], processed + [cs[k].id])
  {
    assert cs[k..][0] == cs[k] && cs[k..][1..] == cs[k + 1..];
  }

  /** Every export of the list is saved in full. */
  predicate AllExported(es: seq<ChannelExport>, ws: Workspace, cfg: Config) {
    forall k :: 0 <= k < |es| ==> Exported(es[k], ws, cfg)
  }

  /** The loop of main after `k` channels: the ids processed are those
      processed before and those exported since, and the channels exported
      followed by what remains to process make up the plan. */
  predicate Walked(channels: seq<Channel>, k: nat, processed0: seq<string>, processed: seq<string>,
                   exported: seq<ChannelExport>)
  {
    && k <= |channels|
    && processed == processed0 + Ids(ChannelsOf(exported))
    && ChannelsOf(exported) + ToProcess(channels[k..], processed) == ToProcess(channels, processed0)
  }

  lemma {:induction false} WalkedStart(channels: seq<Channel>, processed0: seq<string>)
    ensures Walked(channels, 0, processed0, processed0, [])
  {
    assert channels[0..] == channels;
    assert processed0 + Ids(ChannelsOf([])) == processed0;
  }

  lemma {:induction false} WalkedSkip(channels: seq<Channel>, k: nat, processed0: seq<string>, processed: seq<string>,
                                      exported: seq<ChannelExport>)
    requires Walked(channels, k, processed0, processed, exported)
    requires k < |channels| && channels[k].id in processed
    ensures Walked(channels, k + 1, processed0, processed, exported)
  {
    ToProcessSkip(channels, k, processed);
  }

  /** The ids of the exports, one more export later. */
  lemma {:induction false} IdsOneMore(processed0: seq<string>, exported: seq<ChannelExport>, e: ChannelExport)
    ensures ChannelsOf(exported + [e]) == ChannelsOf(exported) + [e.channel]
    ensures processed0 + Ids(ChannelsOf(exported + [e])) == processed0 + Ids(ChannelsOf(exported)) + [e.channel.id]
  {
    ChannelsOfAppend(exported, [e]);
    assert ChannelsOf([e]) == [e.channel];
    IdsAppend(ChannelsOf(exported), [e.channel]);
    assert Ids([e.channel]) == [e.channel.id];
    var ids := Ids(ChannelsOf(exported));
    assert processed0 + (ids + [e.channel.id]) == processed0 + ids + [e.channel.id];
  }

  lemma {:induction false} AllExportedOneMore(exported: seq<ChannelExport>, e: ChannelExport, ws: Workspace, cfg: Config)
    requires AllExported(exported, ws, cfg) && Exported(e, ws, cfg)
    ensures AllExported(exported + [e], ws, cfg)
  {
    forall k | 0 <= k < |exported + [e]| ensures Exported((exported + [e])[k], ws, cfg) {
      if k < |exported| {
        assert (exported + [e])[k] == exported[k];
      }
    }
  }

  lemma {:induction false} WalkedTake(channels: seq<Channel>, k: nat, processed0: seq<string>, processed: seq<string>,
                                      exported: seq<ChannelExport>, e: ChannelExport)
    requires Walked(channels, k, processed0, processed, exported)
    requires k < |channels| && channels[k].id !in processed
    requires e.channel == channels[k]
    ensures processed0 + Ids(ChannelsOf(exported + [e])) == processed + [channels[k].id]
    ensures Walked(channels, k + 1, processed0, processed + [channels[k].id], exported + [e])
  {
    ToProcessTake(channels, k, processed);
    IdsOneMore(processed0, exported, e);
    var rest := ToProcess(channels[k + 1..], processed + [channels[k].id]);
    assert ChannelsOf(exported) + ([channels[k]] + rest) == ChannelsOf(exported) + [channels[k]] + rest;
  }

  /** The channel the loop stops at is the next one of the plan. */
  lemma {:induction false} WalkedStop(channels: seq<Channel>, k: nat, processed0: seq<string>, processed: seq<string>,
                                      exported: seq<ChannelExport>)
    requires Walked(channels, k, processed0, processed, exported)
    requires k < |channels| && channels[k].id !in processed
    ensures |exported| < |ToProcess(channels, processed0)|
    ensures ToProcess(channels, processed0)[|exported|] == channels[k]
    ensures ChannelsOf(exported) < ToProcess(channels, processed0)
  {
    ToProcessTake(channels, k, processed);
    var rest := ToProcess(channels[k + 1..], processed + [channels[k].id]);
    assert ChannelsOf(exported) + ([channels[k]] + rest) == ChannelsOf(exported) + [channels[k]] + rest;
  }

  /** Past the last channel the whole plan is exported. */
  lemma {:induction false} WalkedEnd(channels: seq<Channel>, processed0: seq<string>, processed: seq<string>,
                                     exported: seq<ChannelExport>)
    requires Walked(channels, |channels|, processed0, processed, exported)
    ensures ChannelsOf(exported) == ToProcess(channels, processed0)
  {
    assert channels[|channels|..] == [];
    assert ChannelsOf(exported) + [] == ChannelsOf(exported);
  }

  /** One channel of the loop whose id is not processed yet: it is
      exported; when that gets through, its id is appended to the ids
      processed and the record of `now` is saved with them; otherwise the
      record is untouched and the channel is the next one of the plan, and
      an exception is the one its messages raised. */
  method ExportNext(dir: ExportDirectory, now: string, channels: seq<Channel>, k: nat, processed0: seq<string>,
                    processed: seq<string>, exported: seq<ChannelExport>, ws: Workspace, cfg: Config)
    returns (ending: Ending, more: seq<ChannelExport>, ids: seq<string>)
    requires Walked(channels, k, processed0, processed, exported) && AllExported(exported, ws, cfg)
    requires k < |channels| && channels[k].id !in processed
    modifies dir
    ensures dir.users == old(dir.users) && dir.channels == old(dir.channels)
    ensures ending == Finished ==>
      && Walked(channels, k + 1, processed0, ids, more) && AllExported(more, ws, cfg)
      && ids == processed + [channels[k].id]
      && dir.progress == old(dir.progress)[now := Progress(true, true, ids)]
    ensures ending != Finished ==>
      && dir.progress == old(dir.progress) && more == exported
      && |exported| < |ToProcess(channels, processed0)|
      && ChannelsOf(exported) < ToProcess(channels, processed0)
      && StoppedOn(ToProcess(channels, processed0)[|exported|], ending, ws, cfg)
  {
    var e;
    ending, e := ExportChannel(channels[k], ws, cfg);
    if ending != Finished {
      WalkedStop(channels, k, processed0, processed, exported);
      more, ids := exported, processed;
      return;
    }
    WalkedTake(channels, k, processed0, processed, exported, e);
    AllExportedOneMore(exported, e, ws, cfg);
    more, ids := exported + [e], processed + [channels[k].id];
    dir.SaveProgress(now, Progress(true, true, ids));
  }

  /** The channel loop of main: every channel whose id is not processed yet
      is exported in order, and its id recorded, until one raises or all
      are through. The channels exported are the first ones of the plan;
      the loop finishes exactly when they are all of it; a channel that
      raises is the next one of the plan, and its messages raised that
      exception. The record of `now` is the only one written: removed when
      the loop finishes, otherwise as the last export left it. */
  method ExportChannels(dir: ExportDirectory, now: string, channels: seq<Channel>, processed0: seq<string>,
                        ws: Workspace, cfg: Config)
    returns (ending: Ending, exported: seq<ChannelExport>)
    requires now in dir.progress
    modifies dir
    ensures dir.users == old(dir.users) && dir.channels == old(dir.channels)
    ensures ChannelsOf(exported) <= ToProcess(channels, processed0)
    ensures ending == Finished <==> ChannelsOf(exported) == ToProcess(channels, processed0)
    ensures ending != Finished ==>
      && |exported| < |ToProcess(channels, processed0)|
      && StoppedOn(ToProcess(channels, processed0)[|exported|], ending, ws, cfg)
    ensures AllExported(exported, ws, cfg)
    ensures ending == Finished ==> dir.progress == old(dir.progress) - {now}
    ensures ending != Finished && exported == [] ==> dir.progress == old(dir.progress)
    ensures ending != Finished && exported != [] ==>
      dir.progress == old(dir.progress)[now := Progress(true, true, processed0 + Ids(ChannelsOf(exported)))]
  {
    ghost var progress0 := dir.progress;
    ghost var record := dir.progress[now];
    var processed := processed0;
    var k := 0;
    exported := [];
    ending := Finished;
    WalkedStart(channels, processed0);
    while k < |channels|
      invariant Walked(channels, k, processed0, processed, exported)
      invariant AllExported(exported, ws, cfg)
      invariant dir.users == old(dir.users) && dir.channels == old(dir.channels)
      invariant dir.progress == progress0[now := record]
      invariant exported == [] ==> record == progress0[now]
      invariant exported != [] ==> record == Progress(true, true, processed)
      invariant ending == Finished
    {
      if channels[k].id in processed {
        WalkedSkip(channels, k, processed0, processed, exported);
        k := k + 1;
        continue;
      }
      var more, ids;
      ending, more, ids := ExportNext(dir, now, channels, k, processed0, processed, exported, ws, cfg);
      if ending != Finished {
        break;
      }
      SavedTwice(progress0, now, record, Progress(true, true, ids));
      record := Progress(true, true, ids);
      exported, processed, k := more, ids, k + 1;
    }
    if ending == Finished {
      WalkedEnd(channels, processed0, processed, exported);
      SavedThenRemoved(progress0, now, record);
      dir.CleanupProgress(now);
    } else if exported == [] {
      SavedUnchanged(progress0, now);
    }
  }

  /** The phases of main before the channel loop: the users, then the
      channel list, each fetched and saved or loaded. The lists saved are
      those of `now` only; the record of `now`, rewritten at most twice,
      lists no channel beyond those it listed and stays well formed. */
  method Prepare(dir: ExportDirectory, now: string, init: Progress, ws: Workspace, cfg: Config)
    returns (channels: Outcome<seq<Channel>>)
    requires init == Lookup(dir.progress, now)
    modifies dir
    ensures channels == RunChannels(init, old(dir.users), old(dir.channels), now, ws, cfg)
    ensures dir.progress - {now} == old(dir.progress) - {now}
    ensures dir.users - {now} == old(dir.users) - {now}
    ensures dir.channels - {now} == old(dir.channels) - {now}
    ensures channels.Done? ==> now in dir.users && now in dir.channels && dir.channels[now] == channels.value
    ensures channels.Done? ==> now in dir.progress
    ensures Lookup(dir.progress, now).processedChannels <= init.processedChannels
    ensures WellFormed(init) ==> WellFormed(Lookup(dir.progress, now))
    ensures WellFormed(init) ==> Lookup(dir.progress, now).processedChannels == init.processedChannels
    ensures init.usersFetched && init.channelsFetched ==> dir.progress == old(dir.progress)
    ensures channels.Done? && WellFormed(init) ==> Lookup(dir.progress, now) == Progress(true, true, init.processedChannels)
    ensures channels.Done? ==> UsersFor(init, old(dir.users), now, ws, cfg).Done?
    ensures UsersFor(init, old(dir.users), now, ws, cfg).Done? ==>
      && now in dir.users && dir.users[now] == UsersFor(init, old(dir.users), now, ws, cfg).value
      && Lookup(dir.progress, now).usersFetched
    ensures !channels.Done? ==>
      && dir.channels == old(dir.channels)
      && (!UsersFor(init, old(dir.users), now, ws, cfg).Done? ==> dir.users == old(dir.users))
      && Lookup(dir.progress, now) ==
           (if !init.usersFetched && UsersFor(init, old(dir.users), now, ws, cfg).Done? then Progress(true, false, [])
            else init)
  {
    ghost var progress0, users0, channels0 := dir.progress, dir.users, dir.channels;
    var users := ObtainUsers(dir, now, init, ws, cfg);
    if !users.Done? {
      channels := if users.Failed? then Failed(users.failure) else Pending;
      return;
    }
    if !init.usersFetched {
      SavedThenRemoved(progress0, now, Progress(true, false, []));
      SavedThenRemoved(users0, now, users.value);
    }
    ghost var progress1 := dir.progress;
    channels := ObtainChannels(dir, now, init, users.value, ws, cfg);
    if !init.channelsFetched && channels.Done? {
      SavedThenRemoved(progress1, now, Progress(true, true, []));
      SavedThenRemoved(channels0, now, channels.value);
    }
  }

  /** main. The record of `now` is the only one touched. Before the channel
      loop a failure ends the run with nothing exported. In the loop, the
      channels exported are the first ones to process, each saved in full;
      the run finishes exactly when all are exported, and then its record
      is gone; a channel that raises gives the run its exception. Whenever
      the run stops early, the record lists only channels processed before
      or exported now, and after a first export it lists exactly those. */
  method RunExport(dir: ExportDirectory, now: string, ws: Workspace, cfg: Config)
    returns (ending: Ending, exported: seq<ChannelExport>)
    modifies dir
    ensures dir.progress - {now} == old(dir.progress) - {now}
    ensures dir.users - {now} == old(dir.users) - {now}
    ensures dir.channels - {now} == old(dir.channels) - {now}
    ensures var init := Lookup(old(dir.progress), now);
      var plan := Plan(init, old(dir.users), old(dir.channels), now, ws, cfg);
      && (!plan.Done? ==> exported == [] && ending == Stop(plan))
      && (plan.Done? ==> ChannelsOf(exported) <= plan.value)
      && (plan.Done? ==> (ending == Finished <==> ChannelsOf(exported) == plan.value))
      && (plan.Done? && ending != Finished ==>
            |exported| < |plan.value| && StoppedOn(plan.value[|exported|], ending, ws, cfg))
    ensures AllExported(exported, ws, cfg)
    ensures ending == Finished ==> now !in dir.progress
    ensures var init := Lookup(old(dir.progress), now);
      var record := Lookup(dir.progress, now);
      && (WellFormed(init) ==> WellFormed(record))
      && (!ending.Finished? ==> record.processedChannels <= init.processedChannels + Ids(ChannelsOf(exported)))
      && (WellFormed(init) && !ending.Finished? ==>
            record.processedChannels == init.processedChannels + Ids(ChannelsOf(exported)))
      && (!ending.Finished? && exported != [] ==>
            record == Progress(true, true, init.processedChannels + Ids(ChannelsOf(exported))))
      && (Plan(init, old(dir.users), old(dir.channels), now, ws, cfg).Done? && WellFormed(init) && !ending.Finished? ==>
            record == Progress(true, true, init.processedChannels + Ids(ChannelsOf(exported))))
    ensures var init := Lookup(old(dir.progress), now);
      var users := UsersFor(init, old(dir.users), now, ws, cfg);
      users.Done? ==>
        && now in dir.users && dir.users[now] == users.value
        && (!ending.Finished? ==> Lookup(dir.progress, now).usersFetched)
    ensures var init := Lookup(old(dir.progress), now);
      var users := UsersFor(init, old(dir.users), now, ws, cfg);
      !RunChannels(init, old(dir.users), old(dir.channels), now, ws, cfg).Done? ==>
        && dir.channels == old(dir.channels)
        && (!users.Done? ==> dir.users == old(dir.users))
        && Lookup(dir.progress, now) == (if !init.usersFetched && users.Done? then Progress(true, false, []) else init)
    ensures var init := Lookup(old(dir.progress), now);
      var cs := RunChannels(init, old(dir.users), old(dir.channels), now, ws, cfg);
      cs.Done? ==> now in dir.users && now in dir.channels && dir.channels[now] == cs.value
  {
    var init := dir.LoadProgress(now);
    exported := [];
    var channels := Prepare(dir, now, init, ws, cfg);
    if !channels.Done? {
      ending := Stop(channels);
      assert init.processedChannels + Ids(ChannelsOf(exported)) == init.processedChannels;
      return;
    }
    ghost var before := dir.progress;
    ending, exported := ExportChannels(dir, now, channels.value, init.processedChannels, ws, cfg);
    if ending != Finished && exported != [] {
      SavedThenRemoved(before, now, Progress(true, true, init.processedChannels + Ids(ChannelsOf(exported))));
    }
    if ending != Finished {
      assert init.processedChannels <= init.processedChannels + Ids(ChannelsOf(exported));
      if exported == [] {
        assert init.processedChannels + Ids(ChannelsOf(exported)) == init.processedChannels;
      }
    }
  }
}
