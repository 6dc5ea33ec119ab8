/**
 * `count_messages_by_user`: a `collections.Counter` of user ids, filled by
 * one pass over the messages. A Counter is a dict, so besides the counts
 * it has an iteration order: the order in which keys were first inserted.
 */
module Tally {
  import opened SlackApi

  /**
   * The filter of the counting loop: the message has a `user` key and its
   * `subtype` is missing or null. Nothing else is looked at; in particular
   * a `bot_id` does not exclude a message.
   */
  predicate Counted(m: Message) { m.user.Some? && m.subtype.None? }

  function Lookup(counts: map<UserId, nat>, k: UserId): nat
  {
    if k in counts then counts[k] else 0
  }

  /** A Counter over user ids: its keys in insertion order, and its mapping. */
  datatype Counter = Counter(order: seq<UserId>, counts: map<UserId, nat>) {

    /** The order lists every key of the mapping once. */
    ghost predicate Valid()
    {
      && (forall i, j :: 0 <= i < j < |order| ==> order[i] != order[j])
      && (forall k :: k in counts <==> k in order)
    }

    /** `counter[k] += 1`: a missing key reads as 0 and is appended to the order. */
    function Increment(k: UserId): (c: Counter)
      ensures Valid() ==> c.Valid()
      ensures k in c.counts && c.counts[k] == Lookup(counts, k) + 1
      ensures forall u :: u != k ==> Lookup(c.counts, u) == Lookup(counts, u)
      ensures k in counts ==> c.order == order
      ensures k !in counts ==> c.order == order + [k]
    {
      Counter(if k in counts then order else order + [k], counts[k := Lookup(counts, k) + 1])
    }
  }

  const EMPTY: Counter := Counter([], map[])

  /** The Counter after the loop of `count_messages_by_user` has seen `msgs`. */
  function TallyOf(msgs: seq<Message>): Counter
  {
    if |msgs| == 0 then EMPTY
    else
      var c := TallyOf(msgs[..|msgs| - 1]);
      var m := msgs[|msgs| - 1];
      if Counted(m) then c.Increment(m.user.value) else c
  }

  method CountMessagesByUser(messages: seq<Message>) returns (counter: Counter)
    ensures counter == TallyOf(messages)
    ensures counter.Valid()
    ensures forall u :: u in counter.counts <==> u in Authors(messages)
    ensures forall u :: u in counter.counts ==> counter.counts[u] == multiset(Authors(messages))[u] >= 1
  {
    counter := EMPTY;
    for i := 0 to |messages|
      invariant counter == TallyOf(messages[..i])
    {
      var msg := messages[i];
      if msg.user.Some? && msg.subtype.None? {
        counter := counter.Increment(msg.user.value);
      }
      assert messages[..i + 1][..i] == messages[..i];
    }
    assert messages[..|messages|] == messages;
    TallyProperties(messages);
  }

  // ---------------------------------------------------------------------
  // An independent description of the tally.

  /** The authors of the counted messages, in message order. */
  function Authors(msgs: seq<Message>): seq<UserId>
  {
    if |msgs| == 0 then []
    else (if Counted(msgs[0]) then [msgs[0].user.value] else []) + Authors(msgs[1..])
  }

  /** Incrementing a fresh Counter once per id, in order. */
  function CounterOf(ids: seq<UserId>): Counter
  {
    if |ids| == 0 then EMPTY else CounterOf(ids[..|ids| - 1]).Increment(ids[|ids| - 1])
  }

  /** Position of the first occurrence of `x` in `s`. */
  function FirstIndex(s: seq<UserId>, x: UserId): (k: nat)
    requires x in s
    ensures k < |s| && s[k] == x && x !in s[..k]
  {
    if s[0] == x then 0 else 1 + FirstIndex(s[1..], x)
  }

  /** The sum of the counts of the given keys. */
  function SumCounts(keys: seq<UserId>, counts: map<UserId, nat>): nat
  {
    if |keys| == 0 then 0 else Lookup(counts, keys[0]) + SumCounts(keys[1..], counts)
  }

  lemma {:induction false} AuthorsSnoc(msgs: seq<Message>, m: Message)
    ensures Authors(msgs + [m]) == Authors(msgs) + (if Counted(m) then [m.user.value] else [])
  {
    if |msgs| > 0 {
      assert (msgs + [m])[1..] == msgs[1..] + [m];
      AuthorsSnoc(msgs[1..], m);
    } else {
      assert msgs + [m] == [m];
    }
  }

  /** The loop's Counter depends on the messages only through their counted authors. */
  lemma {:induction false} TallyOfAuthors(msgs: seq<Message>)
    ensures TallyOf(msgs) == CounterOf(Authors(msgs))
  {
    if |msgs| > 0 {
      var init, m := msgs[..|msgs| - 1], msgs[|msgs| - 1];
      assert msgs == init + [m];
      TallyOfAuthors(init);
      AuthorsSnoc(init, m);
      var a := Authors(init);
      if Counted(m) {
        var a' := a + [m.user.value];
        assert a'[..|a'| - 1] == a;
        assert CounterOf(a') == CounterOf(a).Increment(m.user.value);
      } else {
        assert Authors(msgs) == a;
      }
    }
  }

  lemma {:induction false} FirstIndexSnoc(s: seq<UserId>, y: UserId, x: UserId)
    requires x in s + [y]
    ensures x in s ==> FirstIndex(s + [y], x) == FirstIndex(s, x)
    ensures x !in s ==> FirstIndex(s + [y], x) == |s|
  {
    if |s| > 0 && s[0] != x {
      assert (s + [y])[1..] == s[1..] + [y];
      FirstIndexSnoc(s[1..], y, x);
    }
  }

  lemma {:induction false} SumCountsOutside(keys: seq<UserId>, counts: map<UserId, nat>, k: UserId, v: nat)
    requires k !in keys
    ensures SumCounts(keys, counts[k := v]) == SumCounts(keys, counts)
  {
    if |keys| > 0 {
      SumCountsOutside(keys[1..], counts, k, v);
    }
  }

  lemma {:induction false} SumCountsSnoc(keys: seq<UserId>, counts: map<UserId, nat>, k: UserId)
    ensures SumCounts(keys + [k], counts) == SumCounts(keys, counts) + Lookup(counts, k)
  {
    if |keys| > 0 {
      assert (keys + [k])[1..] == keys[1..] + [k];
      SumCountsSnoc(keys[1..], counts, k);
    } else {
      assert keys + [k] == [k];
    }
  }

  lemma {:induction false} SumCountsBump(keys: seq<UserId>, counts: map<UserId, nat>, k: UserId)
    requires k in keys
    requires forall i, j :: 0 <= i < j < |keys| ==> keys[i] != keys[j]
    ensures SumCounts(keys, counts[k := Lookup(counts, k) + 1]) == SumCounts(keys, counts) + 1
  {
    if keys[0] == k {
      assert k !in keys[1..];
      SumCountsOutside(keys[1..], counts, k, Lookup(counts, k) + 1);
    } else {
      SumCountsBump(keys[1..], counts, k);
    }
  }

  /** The Counter built from `ids` is keyed by exactly the ids seen, each listed once. */
  lemma {:induction false} CounterOfKeys(ids: seq<UserId>)
    ensures CounterOf(ids).Valid()
    ensures forall u :: u in CounterOf(ids).counts <==> u in ids
  {
    if |ids| > 0 {
      var init, x := ids[..|ids| - 1], ids[|ids| - 1];
      assert ids == init + [x];
      CounterOfKeys(init);
    }
  }

  /** Each count of the Counter built from `ids` is the number of occurrences of its key. */
  lemma {:induction false} CounterOfCounts(ids: seq<UserId>)
    ensures forall u :: u in CounterOf(ids).counts ==> CounterOf(ids).counts[u] == multiset(ids)[u]
  {
    if |ids| > 0 {
      var init, x := ids[..|ids| - 1], ids[|ids| - 1];
      assert ids == init + [x];
      CounterOfCounts(init);
      CounterOfKeys(init);
      assert multiset(ids) == multiset(init) + multiset{x};
      forall u | u in CounterOf(ids).counts
        ensures CounterOf(ids).counts[u] == multiset(ids)[u]
      {
        if u != x {
          assert u in CounterOf(init).counts;
        } else if x !in init {
          assert multiset(init)[x] == 0;
        }
      }
    }
  }

  /** The keys of the Counter built from `ids` come in order of first occurrence. */
  lemma {:induction false} CounterOfOrder(ids: seq<UserId>)
    ensures forall u :: u in CounterOf(ids).order ==> u in ids
    ensures forall i, j :: 0 <= i < j < |CounterOf(ids).order| ==>
      FirstIndex(ids, CounterOf(ids).order[i]) < FirstIndex(ids, CounterOf(ids).order[j])
  {
    if |ids| > 0 {
      var init, x := ids[..|ids| - 1], ids[|ids| - 1];
      assert ids == init + [x];
      CounterOfOrder(init);
      CounterOfKeys(init);
      var c, c' := CounterOf(init), CounterOf(ids);
      forall i, j | 0 <= i < j < |c'.order|
        ensures FirstIndex(ids, c'.order[i]) < FirstIndex(ids, c'.order[j])
      {
        FirstIndexSnoc(init, x, c'.order[i]);
        FirstIndexSnoc(init, x, c'.order[j]);
        if x !in c.counts && j == |c.order| {
          assert c'.order[i] == c.order[i];
          assert c.order[i] in init;
        } else {
          assert c'.order[i] == c.order[i] && c'.order[j] == c.order[j];
        }
      }
    }
  }

  /** The counts of the Counter built from `ids` add up to the number of ids. */
  lemma {:induction false} CounterOfTotal(ids: seq<UserId>)
    ensures SumCounts(CounterOf(ids).order, CounterOf(ids).counts) == |ids|
  {
    if |ids| > 0 {
      var init, x := ids[..|ids| - 1], ids[|ids| - 1];
      assert ids == init + [x];
      CounterOfTotal(init);
      CounterOfKeys(init);
      var c := CounterOf(init);
      if x in c.counts {
        SumCountsBump(c.order, c.counts, x);
      } else {
        SumCountsOutside(c.order, c.counts, x, 1);
        SumCountsSnoc(c.order, c.counts[x := 1], x);
      }
    }
  }

  /**
   * The tally of `count_messages_by_user`: one key per author of a counted
   * message, each count at least 1 and equal to that author's number of
   * counted messages, keys in order of first counted message, and the
   * counts summing to the number of counted messages.
   */
  lemma TallyProperties(msgs: seq<Message>)
    ensures TallyOf(msgs).Valid()
    ensures forall u :: u in TallyOf(msgs).counts <==> u in Authors(msgs)
    ensures forall u :: u in TallyOf(msgs).counts ==>
      TallyOf(msgs).counts[u] == multiset(Authors(msgs))[u] >= 1
    ensures forall i, j :: 0 <= i < j < |TallyOf(msgs).order| ==>
      FirstIndex(Authors(msgs), TallyOf(msgs).order[i]) < FirstIndex(Authors(msgs), TallyOf(msgs).order[j])
    ensures SumCounts(TallyOf(msgs).order, TallyOf(msgs).counts) == |Authors(msgs)|
  {
    TallyOfAuthors(msgs);
    CounterOfKeys(Authors(msgs));
    CounterOfCounts(Authors(msgs));
    CounterOfOrder(Authors(msgs));
    CounterOfTotal(Authors(msgs));
  }

  /** A message that is not counted leaves every count as it was, wherever it stands. */
  lemma UncountedIgnored(before: seq<Message>, m: Message, after: seq<Message>)
    requires !Counted(m)
    ensures TallyOf(before + [m] + after) == TallyOf(before + after)
  {
    AuthorsConcat(before, [m]);
    AuthorsConcat(before + [m], after);
    AuthorsConcat(before, after);
    assert Authors([m]) == [];
    assert Authors(before + [m] + after) == Authors(before + after);
    TallyOfAuthors(before + [m] + after);
    TallyOfAuthors(before + after);
  }

  /** Bot origin and text play no part: only `user` and `subtype` decide the tally. */
  lemma {:induction false} OnlyUserAndSubtypeMatter(a: seq<Message>, b: seq<Message>)
    requires |a| == |b|
    requires forall i :: 0 <= i < |a| ==> a[i].user == b[i].user && a[i].subtype == b[i].subtype
    ensures TallyOf(a) == TallyOf(b)
  {
    if |a| > 0 {
      OnlyUserAndSubtypeMatter(a[..|a| - 1], b[..|b| - 1]);
    }
  }

  lemma {:induction false} AuthorsConcat(a: seq<Message>, b: seq<Message>)
    ensures Authors(a + b) == Authors(a) + Authors(b)
  {
    if |a| > 0 {
      assert (a + b)[1..] == a[1..] + b;
      AuthorsConcat(a[1..], b);
    } else {
      assert a + b == b;
    }
  }
}
