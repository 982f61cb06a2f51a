/**
 * `sort_messages`: the messages ordered by their `ts` string. Python
 * compares strings by code point, lexicographically, and its sort is
 * stable, so messages with the same `ts` keep their order.
 */
module Sorting {
  import opened Records

  /** Lexicographic order on strings, by code point; a prefix comes first. */
  predicate TsLe(a: string, b: string)
    decreases |a|
  {
    a == [] || (b != [] && (a[0] < b[0] || (a[0] == b[0] && TsLe(a[1..], b[1..]))))
  }

  lemma {:induction false} TsLeReflexive(a: string)
    ensures TsLe(a, a)
    decreases |a|
  {
    if a != [] {
      TsLeReflexive(a[1..]);
    }
  }

  lemma {:induction false} TsLeTotal(a: string, b: string)
    ensures TsLe(a, b) || TsLe(b, a)
    decreases |a|
  {
    if a != [] && b != [] && a[0] == b[0] {
      TsLeTotal(a[1..], b[1..]);
    }
  }

  lemma {:induction false} TsLeAntisymmetric(a: string, b: string)
    requires TsLe(a, b) && TsLe(b, a)
    ensures a == b
    decreases |a|
  {
    if a != [] {
      TsLeAntisymmetric(a[1..], b[1..]);
      assert a == [a[0]] + a[1..];
      assert b == [b[0]] + b[1..];
    }
  }

  lemma {:induction false} TsLeTransitive(a: string, b: string, c: string)
    requires TsLe(a, b) && TsLe(b, c)
    ensures TsLe(a, c)
    decreases |a|
  {
    if a != [] && a[0] == b[0] && b[0] == c[0] {
      TsLeTransitive(a[1..], b[1..], c[1..]);
    }
  }

  /** Ordered by `ts`, pair by pair. */
  predicate SortedByTs(ms: seq<Message>) {
    forall i, j :: 0 <= i < j < |ms| ==> TsLe(ms[i].ts, ms[j].ts)
  }

  /** `m` placed before the first message whose `ts` is not below its own. */
  function Insert(m: Message, ms: seq<Message>): (r: seq<Message>)
    ensures multiset(r) == multiset(ms) + multiset{m}
    ensures |r| == |ms| + 1
    decreases |ms|
  {
    if ms == [] || TsLe(m.ts, ms[0].ts) then [m] + ms
    else
      assert ms == [ms[0]] + ms[1..];
      [ms[0]] + Insert(m, ms[1..])
  }

  lemma {:induction false} InsertSorted(m: Message, ms: seq<Message>)
    requires SortedByTs(ms)
    ensures SortedByTs(Insert(m, ms))
    decreases |ms|
  {
    if ms == [] || TsLe(m.ts, ms[0].ts) {
      forall j | 0 <= j < |ms| ensures TsLe(m.ts, ms[j].ts) {
        if j > 0 {
          TsLeTransitive(m.ts, ms[0].ts, ms[j].ts);
        }
      }
      assert forall j :: 1 <= j < |ms| + 1 ==> ([m] + ms)[j] == ms[j - 1];
    } else {
      TsLeTotal(m.ts, ms[0].ts);
      InsertSorted(m, ms[1..]);
      var r := Insert(m, ms);
      var tail := Insert(m, ms[1..]);
      assert r == [ms[0]] + tail;
      forall j | 0 <= j < |tail| ensures TsLe(ms[0].ts, tail[j].ts) {
        assert tail[j] in multiset(ms[1..]) + multiset{m};
        if tail[j] in multiset(ms[1..]) {
          var k :| 0 <= k < |ms[1..]| && ms[1..][k] == tail[j];
          assert ms[k + 1] == tail[j];
        }
      }
    }
  }

  /** sorted(messages, key=ts), as a stable insertion sort. */
  function SortMessages(ms: seq<Message>): seq<Message>
    decreases |ms|
  {
    if ms == [] then [] else Insert(ms[0], SortMessages(ms[1..]))
  }

  /** The sorted list is ordered by `ts` and holds exactly the same
      messages, duplicates included. */
  lemma {:induction false} SortMessagesCorrect(ms: seq<Message>)
    ensures SortedByTs(SortMessages(ms))
    ensures multiset(SortMessages(ms)) == multiset(ms)
    ensures |SortMessages(ms)| == |ms|
    decreases |ms|
  {
    if ms != [] {
      var rest := SortMessages(ms[1..]);
      SortMessagesCorrect(ms[1..]);
      InsertSorted(ms[0], rest);
      assert SortMessages(ms) == Insert(ms[0], rest);
      calc {
        multiset(SortMessages(ms));
        multiset(rest) + multiset{ms[0]};
        multiset(ms[1..]) + multiset{ms[0]};
        { assert ms == [ms[0]] + ms[1..]; }
        multiset(ms);
      }
    }
  }

  /** The messages whose `ts` is `t`, in order. */
  function WithTs(ms: seq<Message>, t: string): seq<Message>
    decreases |ms|
  {
    if ms == [] then [] else (if ms[0].ts == t then [ms[0]] else []) + WithTs(ms[1..], t)
  }

  lemma {:induction false} InsertWithTs(m: Message, ms: seq<Message>, t: string)
    ensures WithTs(Insert(m, ms), t) == (if m.ts == t then [m] else []) + WithTs(ms, t)
    decreases |ms|
  {
    if ms == [] || TsLe(m.ts, ms[0].ts) {
      assert ([m] + ms)[1..] == ms;
    } else {
      InsertWithTs(m, ms[1..], t);
      var r := [ms[0]] + Insert(m, ms[1..]);
      assert r[1..] == Insert(m, ms[1..]);
      if m.ts == t && ms[0].ts == t {
        TsLeReflexive(t);
      }
    }
  }

  /** The sort is stable: the messages with one `ts` come out in the order
      they came in. */
  lemma {:induction false} SortMessagesStable(ms: seq<Message>, t: string)
    ensures WithTs(SortMessages(ms), t) == WithTs(ms, t)
    decreases |ms|
  {
    if ms != [] {
      SortMessagesStable(ms[1..], t);
      InsertWithTs(ms[0], SortMessages(ms[1..]), t);
    }
  }

  /** Two messages "2.0" and "1.0" come out as "1.0" then "2.0". */
  lemma SortScenario(a: Message, b: Message)
    requires a.ts == "2.0" && b.ts == "1.0"
    ensures SortMessages([a, b]) == [b, a]
  {
    assert [a, b][1..] == [b];
    assert [b][1..] == [];
    assert a.ts[0] == '2' && b.ts[0] == '1';
    assert !TsLe(a.ts, b.ts);
    assert SortMessages([b]) == [b];
    assert Insert(a, [b]) == [b] + Insert(a, []);
  }
}
