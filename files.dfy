/**
 * `save_files`: every file attached to a message of the channel is
 * downloaded through the download retry loop, except those whose `mode` is
 * "tombstone" (deleted on the remote). A download that fails is logged and
 * skipped; the next file is still attempted. After every download, failed
 * or not, the exporter sleeps the general access wait.
 */
module Files {
  import opened Remote
  import opened Records
  import opened Retry

  /** The attachments of `fs` that are not tombstones, in order. */
  function Live(fs: seq<Attachment>): seq<Attachment>
    decreases |fs|
  {
    if fs == [] then []
    else Live(fs[..|fs| - 1]) + (if fs[|fs| - 1].mode != Tombstone then [fs[|fs| - 1]] else [])
  }

  /** The attachments of one message that are downloaded. */
  function LiveIn(m: Message): seq<Attachment> {
    if m.files.Some? then Live(m.files.value) else []
  }

  /** Every attachment that `save_files` downloads, message by message. */
  function Eligible(ms: seq<Message>): seq<Attachment>
    decreases |ms|
  {
    if ms == [] then [] else Eligible(ms[..|ms| - 1]) + LiveIn(ms[|ms| - 1])
  }

  lemma {:induction false} LiveMembers(fs: seq<Attachment>, a: Attachment)
    ensures a in Live(fs) <==> a in fs && a.mode != Tombstone
    decreases |fs|
  {
    if fs != [] {
      LiveMembers(fs[..|fs| - 1], a);
      assert fs == fs[..|fs| - 1] + [fs[|fs| - 1]];
    }
  }

  /** `m` has `a` among its files. */
  predicate CarriedBy(m: Message, a: Attachment) {
    m.files.Some? && a in m.files.value
  }

  /** An attachment is downloaded exactly when some message carries it and
      it is not a tombstone. */
  lemma {:induction false} EligibleMembers(ms: seq<Message>, a: Attachment)
    ensures a in Eligible(ms) <==> a.mode != Tombstone && exists i :: 0 <= i < |ms| && CarriedBy(ms[i], a)
    decreases |ms|
  {
    if ms != [] {
      var init, last := ms[..|ms| - 1], ms[|ms| - 1];
      EligibleMembers(init, a);
      assert a in LiveIn(last) <==> a.mode != Tombstone && CarriedBy(last, a) by {
        if last.files.Some? {
          LiveMembers(last.files.value, a);
        }
      }
      assert (exists i :: 0 <= i < |ms| && CarriedBy(ms[i], a)) <==>
             (exists i :: 0 <= i < |init| && CarriedBy(init[i], a)) || CarriedBy(last, a) by {
        if exists i :: 0 <= i < |ms| && CarriedBy(ms[i], a) {
          var i :| 0 <= i < |ms| && CarriedBy(ms[i], a);
          if i < |init| {
            assert init[i] == ms[i];
          }
        }
        if exists i :: 0 <= i < |init| && CarriedBy(init[i], a) {
          var i :| 0 <= i < |init| && CarriedBy(init[i], a);
          assert ms[i] == init[i];
        }
      }
    }
  }

  lemma {:induction false} LivePrefix(fs: seq<Attachment>, k: nat)
    requires k <= |fs|
    ensures Live(fs[..k]) <= Live(fs)
    decreases |fs| - k
  {
    if k < |fs| {
      LivePrefix(fs, k + 1);
      assert fs[..k + 1][..k] == fs[..k];
    } else {
      assert fs[..k] == fs;
    }
  }

  lemma {:induction false} LiveUnfold(fs: seq<Attachment>, j: nat)
    requires j < |fs|
    ensures Live(fs[..j + 1]) == Live(fs[..j]) + (if fs[j].mode != Tombstone then [fs[j]] else [])
    ensures Live(fs[..j + 1]) <= Live(fs)
  {
    assert fs[..j + 1][..j] == fs[..j];
    assert fs[..j + 1][j] == fs[j];
    LivePrefix(fs, j + 1);
  }

  lemma {:induction false} EligiblePrefix(ms: seq<Message>, i: nat)
    requires i <= |ms|
    ensures Eligible(ms[..i]) <= Eligible(ms)
    decreases |ms| - i
  {
    if i < |ms| {
      EligiblePrefix(ms, i + 1);
      assert ms[..i + 1][..i] == ms[..i];
    } else {
      assert ms[..i] == ms;
    }
  }

  /** One download attempt and how it ended. */
  datatype Attempt = Attempt(file: Attachment, outcome: Outcome<Bytes>)

  /** The files attempted, in order. */
  function Attempted(attempts: seq<Attempt>): (r: seq<Attachment>)
    ensures |r| == |attempts|
    ensures forall k :: 0 <= k < |attempts| ==> r[k] == attempts[k].file
    decreases |attempts|
  {
    if attempts == [] then [] else [attempts[0].file] + Attempted(attempts[1..])
  }

  /** The downloaded file's name in the files directory. */
  function SavedName(a: Attachment): (r: string)
    ensures |r| == |a.id| + 1 + |a.name|
    ensures r[..|a.id|] == a.id && r[|a.id|] == '_' && r[|a.id| + 1..] == a.name
  {
    a.id + "_" + a.name
  }

  /** An id without `_` is no longer than any id saved under the same
      name: the saved name has `_` right after the shorter id. */
  lemma {:induction false} SavedIdNoLonger(a: Attachment, b: Attachment)
    requires '_' !in b.id && SavedName(a) == SavedName(b)
    ensures |b.id| <= |a.id|
  {
  }

  /** Two attachments whose ids hold no `_` are saved under the same name
      only when they have the same id and the same name. */
  lemma {:induction false} SavedNameInjective(a: Attachment, b: Attachment)
    requires '_' !in a.id && '_' !in b.id
    ensures SavedName(a) == SavedName(b) <==> a.id == b.id && a.name == b.name
  {
    if SavedName(a) == SavedName(b) {
      SavedIdNoLonger(a, b);
      SavedIdNoLonger(b, a);
      var s := SavedName(a);
      assert a.id == s[..|a.id|] == b.id;
      assert a.name == s[|a.id| + 1..] == b.name;
    }
  }

  /** Each attempt ended as the download retry loop does on that file's
      replies. */
  predicate Recorded(attempts: seq<Attempt>, downloads: string -> seq<HttpReply>, maxRetries: nat) {
    forall k :: 0 <= k < |attempts| ==>
      attempts[k].outcome == DownloadFrom(downloads(attempts[k].file.urlPrivate), 0, maxRetries).outcome
  }

  /** No attempt was left retrying. */
  predicate Settled(attempts: seq<Attempt>) {
    forall k :: 0 <= k < |attempts| ==> !attempts[k].outcome.Pending?
  }

  /** Every sleep is the access wait. */
  predicate Paced(sleeps: seq<real>, accessWait: real) {
    forall k :: 0 <= k < |sleeps| ==> sleeps[k] == accessWait
  }

  /** Every file of `target` attempted in order, each to its end, each
      followed by one access wait. */
  predicate Complete(attempts: seq<Attempt>, sleeps: seq<real>, target: seq<Attachment>,
                     downloads: string -> seq<HttpReply>, maxRetries: nat, accessWait: real) {
    && Attempted(attempts) == target
    && Recorded(attempts, downloads, maxRetries) && Settled(attempts)
    && |sleeps| == |attempts| && Paced(sleeps, accessWait)
  }

  /** A prefix of `target` attempted in order, the last attempt still
      retrying when its replies ran out, every earlier one followed by one
      access wait. */
  predicate Interrupted(attempts: seq<Attempt>, sleeps: seq<real>, target: seq<Attachment>,
                        downloads: string -> seq<HttpReply>, maxRetries: nat, accessWait: real) {
    && Attempted(attempts) <= target
    && attempts != [] && attempts[|attempts| - 1].outcome.Pending?
    && Recorded(attempts, downloads, maxRetries) && Settled(attempts[..|attempts| - 1])
    && |sleeps| == |attempts| - 1 && Paced(sleeps, accessWait)
  }

  lemma {:induction false} AttemptedAppend(a: seq<Attempt>, b: seq<Attempt>)
    ensures Attempted(a + b) == Attempted(a) + Attempted(b)
  {
    var l, r := Attempted(a + b), Attempted(a) + Attempted(b);
    forall k | 0 <= k < |l| ensures l[k] == r[k] {
      if k < |a| {
        assert (a + b)[k] == a[k];
      } else {
        assert (a + b)[k] == b[k - |a|];
      }
    }
    assert l == r;
  }

  lemma {:induction false} PrefixWithin<T>(a: seq<T>, b: seq<T>, c: seq<T>)
    requires b <= c
    ensures a + b <= a + c
  {
    assert a + b == (a + c)[..|a + b|];
  }

  lemma {:induction false} PrefixTransitive<T>(a: seq<T>, b: seq<T>, c: seq<T>)
    requires a <= b && b <= c
    ensures a <= c
  {
    assert a == c[..|a|] by {
      assert b[..|a|] == c[..|a|];
    }
  }

  lemma {:induction false} RecordedAppend(a: seq<Attempt>, b: seq<Attempt>, downloads: string -> seq<HttpReply>, maxRetries: nat)
    requires Recorded(a, downloads, maxRetries) && Recorded(b, downloads, maxRetries)
    ensures Recorded(a + b, downloads, maxRetries)
  {
    forall k | 0 <= k < |a + b|
      ensures (a + b)[k].outcome == DownloadFrom(downloads((a + b)[k].file.urlPrivate), 0, maxRetries).outcome
    {
      if k >= |a| {
        assert (a + b)[k] == b[k - |a|];
      }
    }
  }

  lemma {:induction false} SettledAppend(a: seq<Attempt>, b: seq<Attempt>)
    requires Settled(a) && Settled(b)
    ensures Settled(a + b)
  {
    forall k | 0 <= k < |a + b| ensures !(a + b)[k].outcome.Pending? {
      if k >= |a| {
        assert (a + b)[k] == b[k - |a|];
      }
    }
  }

  lemma {:induction false} PacedAppend(a: seq<real>, b: seq<real>, accessWait: real)
    requires Paced(a, accessWait) && Paced(b, accessWait)
    ensures Paced(a + b, accessWait)
  {
    forall k | 0 <= k < |a + b| ensures (a + b)[k] == accessWait {
      if k >= |a| {
        assert (a + b)[k] == b[k - |a|];
      }
    }
  }

  /** Walking `x` to its end and then `y` to its end walks `x + y`. */
  lemma {:induction false} CompleteAppend(a: seq<Attempt>, s: seq<real>, x: seq<Attachment>,
                                          b: seq<Attempt>, t: seq<real>, y: seq<Attachment>,
                                          downloads: string -> seq<HttpReply>, maxRetries: nat, accessWait: real)
    requires Complete(a, s, x, downloads, maxRetries, accessWait)
    requires Complete(b, t, y, downloads, maxRetries, accessWait)
    ensures Complete(a + b, s + t, x + y, downloads, maxRetries, accessWait)
  {
    AttemptedAppend(a, b);
    RecordedAppend(a, b, downloads, maxRetries);
    SettledAppend(a, b);
    PacedAppend(s, t, accessWait);
  }

  lemma {:induction false} InterruptedAppendShape(a: seq<Attempt>, x: seq<Attachment>,
                                                  b: seq<Attempt>, y: seq<Attachment>, z: seq<Attachment>)
    requires Attempted(a) == x && Attempted(b) <= y && x + y <= z
    requires b != [] && b[|b| - 1].outcome.Pending?
    ensures Attempted(a + b) <= z
    ensures (a + b)[|a + b| - 1].outcome.Pending?
  {
    AttemptedAppend(a, b);
    PrefixWithin(x, Attempted(b), y);
    PrefixTransitive(Attempted(a + b), x + y, z);
    assert (a + b)[|a + b| - 1] == b[|b| - 1];
  }

  lemma {:induction false} InterruptedAppendRecords(a: seq<Attempt>, s: seq<real>, b: seq<Attempt>, t: seq<real>,
                                                    downloads: string -> seq<HttpReply>, maxRetries: nat, accessWait: real)
    requires Recorded(a, downloads, maxRetries) && Recorded(b, downloads, maxRetries)
    requires Settled(a) && b != [] && Settled(b[..|b| - 1])
    requires Paced(s, accessWait) && Paced(t, accessWait)
    ensures Recorded(a + b, downloads, maxRetries)
    ensures Settled((a + b)[..|a + b| - 1])
    ensures Paced(s + t, accessWait)
  {
    RecordedAppend(a, b, downloads, maxRetries);
    assert (a + b)[..|a + b| - 1] == a + b[..|b| - 1];
    SettledAppend(a, b[..|b| - 1]);
    PacedAppend(s, t, accessWait);
  }

  /** Walking `x` to its end and then being stopped inside `y` is being
      stopped inside `x + y`, or inside anything that extends it. */
  lemma {:induction false} InterruptedAppend(a: seq<Attempt>, s: seq<real>, x: seq<Attachment>,
                                             b: seq<Attempt>, t: seq<real>, y: seq<Attachment>, z: seq<Attachment>,
                                             downloads: string -> seq<HttpReply>, maxRetries: nat, accessWait: real)
    requires Complete(a, s, x, downloads, maxRetries, accessWait)
    requires Interrupted(b, t, y, downloads, maxRetries, accessWait)
    requires x + y <= z
    ensures Interrupted(a + b, s + t, z, downloads, maxRetries, accessWait)
  {
    InterruptedAppendShape(a, x, b, y, z);
    InterruptedAppendRecords(a, s, b, t, downloads, maxRetries, accessWait);
  }

  /** A walk that got through met no file whose download is still
      retrying. */
  lemma {:induction false} CompleteSettles(attempts: seq<Attempt>, sleeps: seq<real>, target: seq<Attachment>,
                                           downloads: string -> seq<HttpReply>, maxRetries: nat, accessWait: real,
                                           a: Attachment)
    requires Complete(attempts, sleeps, target, downloads, maxRetries, accessWait)
    requires a in target
    ensures !DownloadFrom(downloads(a.urlPrivate), 0, maxRetries).outcome.Pending?
  {
    var k :| 0 <= k < |target| && target[k] == a;
    assert Attempted(attempts)[k] == attempts[k].file;
  }

  /** A walk cut short stopped at a file of the target whose download is
      still retrying. */
  lemma {:induction false} InterruptedStalls(attempts: seq<Attempt>, sleeps: seq<real>, target: seq<Attachment>,
                                             downloads: string -> seq<HttpReply>, maxRetries: nat, accessWait: real)
    requires Interrupted(attempts, sleeps, target, downloads, maxRetries, accessWait)
    ensures var last := attempts[|attempts| - 1];
            last.file in target && DownloadFrom(downloads(last.file.urlPrivate), 0, maxRetries).outcome.Pending?
  {
    var n := |attempts| - 1;
    assert Attempted(attempts)[n] == attempts[n].file;
    assert target[n] == Attempted(attempts)[n];
  }

  /** The inner loop of save_files, over the files of one message. */
  method SaveAttachments(files: seq<Attachment>, downloads: string -> seq<HttpReply>, maxRetries: nat, accessWait: real)
    returns (attempts: seq<Attempt>, sleeps: seq<real>, finished: bool)
    ensures finished ==> Complete(attempts, sleeps, Live(files), downloads, maxRetries, accessWait)
    ensures !finished ==> Interrupted(attempts, sleeps, Live(files), downloads, maxRetries, accessWait)
  {
    attempts, sleeps := [], [];
    var j := 0;
    while j < |files|
      invariant j <= |files|
      invariant Complete(attempts, sleeps, Live(files[..j]), downloads, maxRetries, accessWait)
    {
      var fi := files[j];
      LiveUnfold(files, j);
      if fi.mode != Tombstone {
        var outcome, _, _ := DownloadFileWithRetry(downloads(fi.urlPrivate), maxRetries);
        var attempt := [Attempt(fi, outcome)];
        assert Attempted(attempt) == [fi];
        if outcome.Pending? {
          InterruptedAppend(attempts, sleeps, Live(files[..j]), attempt, [], [fi], Live(files),
                            downloads, maxRetries, accessWait);
          attempts := attempts + attempt;
          finished := false;
          return;
        }
        CompleteAppend(attempts, sleeps, Live(files[..j]), attempt, [accessWait], [fi],
                       downloads, maxRetries, accessWait);
        attempts := attempts + attempt;
        sleeps := sleeps + [accessWait];
      } else {
        assert Live(files[..j]) + [] == Live(files[..j]);
      }
      j := j + 1;
    }
    assert files[..j] == files;
    finished := true;
  }

  lemma {:induction false} EligibleUnfold(messages: seq<Message>, i: nat)
    requires i < |messages|
    ensures Eligible(messages[..i + 1]) == Eligible(messages[..i]) + LiveIn(messages[i])
    ensures Eligible(messages[..i + 1]) <= Eligible(messages)
  {
    assert messages[..i + 1][..i] == messages[..i];
    assert messages[..i + 1][i] == messages[i];
    EligiblePrefix(messages, i + 1);
  }

  /** save_files. `downloads` gives, for each `url_private`, the replies its
      requests get. Every eligible attachment is attempted in order, a
      failure does not stop the walk, and each outcome is that of the
      download retry loop on that file's replies. When one download has
      used up its replies while the source would still be retrying, the
      walk ends there, not `finished`. */
  method SaveFiles(messages: seq<Message>, downloads: string -> seq<HttpReply>, maxRetries: nat, accessWait: real)
    returns (attempts: seq<Attempt>, sleeps: seq<real>, finished: bool)
    ensures finished ==> Complete(attempts, sleeps, Eligible(messages), downloads, maxRetries, accessWait)
    ensures !finished ==> Interrupted(attempts, sleeps, Eligible(messages), downloads, maxRetries, accessWait)
  {
    attempts, sleeps := [], [];
    var i := 0;
    while i < |messages|
      invariant i <= |messages|
      invariant Complete(attempts, sleeps, Eligible(messages[..i]), downloads, maxRetries, accessWait)
    {
      var message := messages[i];
      EligibleUnfold(messages, i);
      if message.files.Some? {
        var more, slept, done := SaveAttachments(message.files.value, downloads, maxRetries, accessWait);
        if !done {
          InterruptedAppend(attempts, sleeps, Eligible(messages[..i]), more, slept, LiveIn(message), Eligible(messages),
                            downloads, maxRetries, accessWait);
          attempts, sleeps := attempts + more, sleeps + slept;
          finished := false;
          return;
        }
        CompleteAppend(attempts, sleeps, Eligible(messages[..i]), more, slept, LiveIn(message),
                       downloads, maxRetries, accessWait);
        attempts, sleeps := attempts + more, sleeps + slept;
      } else {
        assert Eligible(messages[..i]) + [] == Eligible(messages[..i]);
      }
      i := i + 1;
    }
    assert messages[..i] == messages;
    finished := true;
  }

  /** A message with one live and one tombstoned file has only the live one
      downloaded. */
  lemma TombstoneScenario(live: Attachment, gone: Attachment, m: Message)
    requires live.mode == "hosted" && gone.mode == Tombstone
    requires m.files == Some([live, gone])
    ensures Eligible([m]) == [live]
  {
    assert [m][..0] == [];
    assert [live, gone][..1] == [live];
    assert [live][..0] == [];
    assert Live([live]) == [live];
    assert Live([live, gone]) == [live];
  }
}
