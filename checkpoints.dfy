/**
 * The export directory's state that survives between runs: the progress
 * record `.progress_<now>.json` and the saved `users.json` and
 * `channels.json` of each export, keyed by the export timestamp `now`.
 * A missing progress file reads as the empty record; a missing saved list
 * is a FileNotFoundError.
 */
module Checkpoints {
  import opened Remote
  import opened Records

  /** The progress record: `users_fetched`, `channels_fetched` and
      `processed_channels`, each defaulting to False or [] when absent. */
  datatype Progress = Progress(usersFetched: bool, channelsFetched: bool, processedChannels: seq<string>)

  /** What an absent progress file (or an empty record) reads as. */
  const NoProgress := Progress(false, false, [])

  /** The records the exporter itself writes: channels only after users,
      and processed channels only after the channel list. */
  predicate WellFormed(p: Progress) {
    && (p.channelsFetched ==> p.usersFetched)
    && (p.processedChannels != [] ==> p.channelsFetched)
  }

  /** load_progress: the record of `now`, or the empty record. */
  function Lookup(records: map<string, Progress>, now: string): (p: Progress)
    ensures now in records ==> p == records[now]
    ensures now !in records ==> p == NoProgress && WellFormed(p)
  {
    if now in records then records[now] else NoProgress
  }

  /** A saved record reads back as saved, and saving one export's record
      leaves every other export's as it was. */
  lemma {:induction false} SaveThenLookup(records: map<string, Progress>, now: string, p: Progress, other: string)
    ensures Lookup(records[now := p], now) == p
    ensures other != now ==> Lookup(records[now := p], other) == Lookup(records, other)
  {
  }

  /** After cleanup, the export reads as never started, and the other
      exports are untouched. */
  lemma {:induction false} CleanupThenLookup(records: map<string, Progress>, now: string, other: string)
    ensures Lookup(records - {now}, now) == NoProgress
    ensures other != now ==> Lookup(records - {now}, other) == Lookup(records, other)
  {
  }

  /** Saving the record of `now` twice leaves the second one. */
  lemma {:induction false} SavedTwice<V>(records: map<string, V>, now: string, p: V, q: V)
    ensures records[now := p][now := q] == records[now := q]
  {
  }

  /** Saving the record of `now` as it was changes nothing. */
  lemma {:induction false} SavedUnchanged<V>(records: map<string, V>, now: string)
    requires now in records
    ensures records[now := records[now]] == records
  {
  }

  /** A record saved and then removed leaves the other records as they were. */
  lemma {:induction false} SavedThenRemoved<V>(records: map<string, V>, now: string, p: V)
    ensures records[now := p] - {now} == records - {now}
  {
  }

  /** The progress files and the saved lists of every export. */
  class ExportDirectory {
    var progress: map<string, Progress>
    var users: map<string, seq<User>>
    var channels: map<string, seq<Channel>>

    constructor (progress0: map<string, Progress>, users0: map<string, seq<User>>, channels0: map<string, seq<Channel>>)
      ensures progress == progress0 && users == users0 && channels == channels0
    {
      progress, users, channels := progress0, users0, channels0;
    }

    /** save_progress: the record of `now` is replaced as a whole. */
    method SaveProgress(now: string, p: Progress)
      modifies this
      ensures progress == old(progress)[now := p]
      ensures users == old(users) && channels == old(channels)
    {
      progress := progress[now := p];
    }

    /** load_progress. */
    method LoadProgress(now: string) returns (p: Progress)
      ensures p == Lookup(progress, now)
    {
      if now in progress {
        p := progress[now];
      } else {
        p := NoProgress;
      }
    }

    /** cleanup_progress: the record of `now` is removed if present. */
    method CleanupProgress(now: string)
      modifies this
      ensures progress == old(progress) - {now}
      ensures users == old(users) && channels == old(channels)
    {
      progress := progress - {now};
    }

    /** save_users. */
    method SaveUsers(now: string, us: seq<User>)
      modifies this
      ensures users == old(users)[now := us]
      ensures progress == old(progress) && channels == old(channels)
    {
      users := users[now := us];
    }

    /** load_users: the saved list, or a FileNotFoundError. */
    method LoadUsers(now: string) returns (r: Result<seq<User>>)
      ensures now in users ==> r == Ok(users[now])
      ensures now !in users ==> r == Err(FileMissing("users.json"))
    {
      if now in users {
        r := Ok(users[now]);
      } else {
        r := Err(FileMissing("users.json"));
      }
    }

    /** save_channels. */
    method SaveChannels(now: string, cs: seq<Channel>)
      modifies this
      ensures channels == old(channels)[now := cs]
      ensures progress == old(progress) && users == old(users)
    {
      channels := channels[now := cs];
    }

    /** load_channels: the saved list, or a FileNotFoundError. */
    method LoadChannels(now: string) returns (r: Result<seq<Channel>>)
      ensures now in channels ==> r == Ok(channels[now])
      ensures now !in channels ==> r == Err(FileMissing("channels.json"))
    {
      if now in channels {
        r := Ok(channels[now]);
      } else {
        r := Err(FileMissing("channels.json"));
      }
    }
  }
}
