/**
 * The fields of Slack's user, channel, message and file records that the
 * exporter inspects. All other attributes are carried along untouched by the
 * source and are not modelled.
 */
module Records {
  import opened Remote

  /** A member of `users_list`; `realName` is None when `real_name` is absent. */
  datatype User = User(id: string, realName: Option<string>)

  /** A conversation of `conversations_list`. `user` is the counterpart of a
      direct-message (`im`) channel. */
  datatype Channel = Channel(id: string, name: string, isIm: bool, user: string)

  /** A file attached to a message. */
  datatype Attachment = Attachment(id: string, name: string, urlPrivate: string, mode: string)

  /** A message; `threadTs` and `files` are None when the key is absent. */
  datatype Message = Message(ts: string, threadTs: Option<string>, files: Option<seq<Attachment>>)

  /** The mode Slack gives to a file deleted on the remote. */
  const Tombstone := "tombstone"
}
