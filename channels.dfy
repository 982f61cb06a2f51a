/**
 * `get_users` and `get_accessible_channels`: the users come from a single
 * `users_list` call; the channels from the paginated `conversations_list`,
 * after which every direct-message channel is named "@" followed by the
 * `real_name` of its counterpart.
 */
module Channels {
  import opened Remote
  import opened Records
  import opened Retry
  import opened Pagination

  /** get_users: one `users_list` call through the retry wrapper (no
      pagination), then one pacing sleep. */
  method GetUsers(rs: seq<ApiReply<seq<User>>>, maxRetries: nat, accessWait: real)
    returns (outcome: Outcome<seq<User>>, sleeps: seq<real>, used: nat)
    ensures var call := InvokeFrom(rs, 0, maxRetries);
      && outcome == call.outcome
      && used == call.used
      && sleeps == call.waits + (if outcome.Done? then [accessWait] else [])
  {
    outcome, sleeps, used := RetryOnRateLimit(rs, maxRetries);
    if outcome.Done? {
      sleeps := sleeps + [accessWait];
    }
  }

  /** The position of the first user whose id is `id`, if any. */
  function FirstUserWith(users: seq<User>, id: string): (r: Option<nat>)
    ensures r.Some? ==> r.value < |users| && users[r.value].id == id
    ensures r.Some? ==> forall k :: 0 <= k < r.value ==> users[k].id != id
    ensures r.None? <==> forall k :: 0 <= k < |users| ==> users[k].id != id
    decreases |users|
  {
    if users == [] then None
    else if users[0].id == id then Some(0)
    else match FirstUserWith(users[1..], id)
      case None => None
      case Some(k) => Some(k + 1)
  }

  /** The name given to a direct-message channel: "@" and the `real_name`
      of the first user whose id is the channel's `user`; an IndexError
      when there is none, a KeyError when that user has no `real_name`. */
  function DirectMessageName(c: Channel, users: seq<User>): Result<string> {
    match FirstUserWith(users, c.user)
    case None => Err(NoSuchUser(c.user))
    case Some(k) =>
      match users[k].realName
      case None => Err(MissingKey("real_name"))
      case Some(n) => Ok("@" + n)
  }

  /** One element of the naming comprehension. */
  function NameChannel(c: Channel, users: seq<User>): Result<Channel> {
    if c.isIm then
      match DirectMessageName(c, users)
      case Err(f) => Err(f)
      case Ok(n) => Ok(c.(name := n))
    else Ok(c)
  }

  /** The naming comprehension over the listed channels: it succeeds when
      every channel can be named, and then names each in place; otherwise it
      raises the error of the first channel that cannot. */
  function NameChannels(cs: seq<Channel>, users: seq<User>): (r: Result<seq<Channel>>)
    ensures r.Ok? <==> forall k :: 0 <= k < |cs| ==> NameChannel(cs[k], users).Ok?
    ensures r.Ok? ==> |r.value| == |cs|
    ensures r.Ok? ==> forall k :: 0 <= k < |cs| ==> r.value[k] == NameChannel(cs[k], users).value
    ensures r.Err? ==> exists k :: 0 <= k < |cs| && NameChannel(cs[k], users) == Err(r.failure)
                                   && forall j :: 0 <= j < k ==> NameChannel(cs[j], users).Ok?
    decreases |cs|
  {
    if cs == [] then Ok([])
    else match NameChannel(cs[0], users)
      case Err(f) => Err(f)
      case Ok(c) =>
        match NameChannels(cs[1..], users)
        case Err(f) => Err(f)
        case Ok(rest) => Ok([c] + rest)
  }

  /** The named list is the listed one, position by position: a channel
      that is not a direct message is unchanged; a direct message differs
      only in its name, "@" and the real name of the first user with its
      counterpart's id, and such a user exists. */
  lemma NamedChannels(cs: seq<Channel>, users: seq<User>, k: nat)
    requires NameChannels(cs, users).Ok? && k < |cs|
    ensures var named := NameChannels(cs, users).value[k];
      && (!cs[k].isIm ==> named == cs[k])
      && (cs[k].isIm ==>
            && FirstUserWith(users, cs[k].user).Some?
            && var u := users[FirstUserWith(users, cs[k].user).value];
               u.realName.Some? && named == cs[k].(name := "@" + u.realName.value))
  {
    assert NameChannel(cs[k], users).Ok?;
  }

  /** A direct message with user "U1" and a user "U1" called "Jane" give
      the channel name "@Jane". */
  lemma DirectMessageScenario(c: Channel)
    requires c.isIm && c.user == "U1"
    ensures NameChannels([c], [User("U1", Some("Jane"))]) == Ok([c.(name := "@Jane")])
  {
    var users := [User("U1", Some("Jane"))];
    assert FirstUserWith(users, "U1") == Some(0);
    assert DirectMessageName(c, users) == Ok("@" + "Jane");
    assert "@" + "Jane" == "@Jane";
    assert NameChannel(c, users) == Ok(c.(name := "@Jane"));
    assert [c][1..] == [];
    assert NameChannels([c][1..], users) == Ok([]);
    assert [c.(name := "@Jane")] + [] == [c.(name := "@Jane")];
  }

  /** get_accessible_channels, as a function of the oracle. */
  function AccessibleChannels(rs: seq<ApiReply<Page<Channel>>>, users: seq<User>, maxRetries: nat,
                              accessWait: real): Outcome<seq<Channel>>
  {
    match PaginateFrom(rs, None, maxRetries, accessWait, Keep).outcome
    case Done(raw) =>
      (match NameChannels(raw, users)
       case Ok(cs) => Done(cs)
       case Err(f) => Failed(f))
    case Failed(f) => Failed(f)
    case Pending => Pending
  }

  /** get_accessible_channels: list every conversation type page by page,
      then name the direct messages. */
  method GetAccessibleChannels(rs: seq<ApiReply<Page<Channel>>>, users: seq<User>, maxRetries: nat,
                               accessWait: real)
    returns (outcome: Outcome<seq<Channel>>)
    ensures outcome == AccessibleChannels(rs, users, maxRetries, accessWait)
  {
    var listed, _, _, _, _ := Paginate(rs, maxRetries, accessWait, Keep);
    match listed
    case Done(channelsRaw) =>
      match NameChannels(channelsRaw, users) {
        case Ok(channels) => outcome := Done(channels);
        case Err(f) => outcome := Failed(f);
      }
    case Failed(f) =>
      outcome := Failed(f);
    case Pending =>
      outcome := Pending;
  }

  /** The channels returned are the concatenated pages of the listing,
      named, one for one. */
  lemma ChannelsAreNamedListing(rs: seq<ApiReply<Page<Channel>>>, users: seq<User>, maxRetries: nat,
                                accessWait: real)
    ensures var l := PaginateFrom(rs, None, maxRetries, accessWait, Keep);
      AccessibleChannels(rs, users, maxRetries, accessWait).Done? ==>
        && l.outcome.Done?
        && NameChannels(Flatten(l.pages), users) == Ok(AccessibleChannels(rs, users, maxRetries, accessWait).value)
        && |AccessibleChannels(rs, users, maxRetries, accessWait).value| == |Flatten(l.pages)|
  {
    var l := PaginateFrom(rs, None, maxRetries, accessWait, Keep);
    ListingIsConcatenation(rs, None, maxRetries, accessWait, Keep);
    TakeAllKeep(l.pages);
  }
}
