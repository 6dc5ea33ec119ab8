/**
 * The data flow of `main`: fetch the channel history, load the directory,
 * tally and append the ranking to a header. The header (a date range
 * taken from the clock) is a parameter here.
 */
module Summary {
  import opened SlackApi
  import opened History
  import opened Tally
  import opened Directory
  import opened Ranking
  import opened Text

  method BuildSummary(channelId: string, oldest: int, pages: seq<PageResponse>,
                      users: UserListResponse, header: string)
    returns (summary: string)
    requires Terminates(pages)
    ensures summary == header + RankingReport(TallyOf(FetchedMessages(pages)), GetUsernames(users))
    ensures summary == header <==> Authors(FetchedMessages(pages)) == []
  {
    var messages, _ := FetchAllMessages(channelId, oldest, pages);
    var userMap := GetUsernames(users);
    var counts := CountMessagesByUser(messages);
    var ranking := FormatRanking(counts, userMap);
    summary := header + ranking;
    if Authors(messages) != [] {
      var u := Authors(messages)[0];
      assert u in counts.counts;
    }
    assert summary == header <==> ranking == "";
  }

  /** The messages of the worked example: three ordinary posts and one join event. */
  function ExampleMessages(): seq<Message>
  {
    [Message(Some("U1"), None, None, "a"),
     Message(Some("U1"), None, None, "b"),
     Message(Some("U2"), None, None, "c"),
     Message(Some("U1"), Some("channel_join"), None, "")]
  }

  /** The roster of the worked example: one display name, one empty display name over a real name. */
  function ExampleUsers(): UserListResponse
  {
    UserListResponse(true, [
      Member("U1", Profile(Some("Alice"), None)),
      Member("U2", Profile(Some(""), Some("Bob")))])
  }

  lemma ExampleTally()
    ensures TallyOf(ExampleMessages()) == Counter(["U1", "U2"], map["U1" := 2, "U2" := 1])
  {
    var msgs := ExampleMessages();
    var m1, m2, m3 := msgs[0], msgs[1], msgs[2];
    assert msgs[..3] == [m1, m2, m3] && [m1, m2, m3][..2] == [m1, m2] && [m1, m2][..1] == [m1];
    assert TallyOf([m1]) == Counter(["U1"], map["U1" := 1]);
    assert map["U1" := 1]["U1" := 2] == map["U1" := 2];
    assert TallyOf([m1, m2]) == Counter(["U1"], map["U1" := 2]);
    assert TallyOf([m1, m2, m3]) == Counter(["U1", "U2"], map["U1" := 2, "U2" := 1]);
  }

  lemma ExampleDirectory()
    ensures GetUsernames(ExampleUsers()) == map["U1" := "Alice", "U2" := "Bob"]
  {
    var ms := ExampleUsers().members;
    assert ms[..1] == [ms[0]];
    assert Name(ms[0]) == "Alice" && Name(ms[1]) == "Bob";
    assert NameMap([ms[0]]) == map["U1" := "Alice"];
  }

  lemma ExampleOrder()
    ensures MostCommon(Items(Counter(["U1", "U2"], map["U1" := 2, "U2" := 1]))) == [("U1", 2), ("U2", 1)]
  {
    var items := Items(Counter(["U1", "U2"], map["U1" := 2, "U2" := 1]));
    assert items == [("U1", 2), ("U2", 1)];
    assert items[1..] == [("U2", 1)];
    assert MostCommon([("U2", 1)]) == [("U2", 1)];
  }

  lemma ExampleLine(name: string, count: nat, digit: char)
    requires count < 10 && digit == DigitChar(count)
    ensures FormatLine(name, count) == name + ": " + [digit] + "回"
  {
  }

  lemma ExampleLineList()
    ensures RankingLines([("U1", 2), ("U2", 1)], map["U1" := "Alice", "U2" := "Bob"]) == ["Alice: 2回", "Bob: 1回"]
  {
    var d := map["U1" := "Alice", "U2" := "Bob"];
    var lines := RankingLines([("U1", 2), ("U2", 1)], d);
    assert Resolve(d, "U1") == "Alice" && Resolve(d, "U2") == "Bob";
    ExampleLine("Alice", 2, '2');
    ExampleLine("Bob", 1, '1');
    assert "Alice" + ": " + ['2'] + "回" == "Alice: 2回";
    assert "Bob" + ": " + ['1'] + "回" == "Bob: 1回";
    assert lines[0] == "Alice: 2回" && lines[1] == "Bob: 1回";
  }

  lemma JoinTwo(a: string, b: string)
    ensures Join([a, b]) == a + "\n" + b
  {
    assert [a, b][1..] == [b];
  }

  lemma ExampleJoin()
    ensures Join(["Alice: 2回", "Bob: 1回"]) == "Alice: 2回\nBob: 1回"
  {
    JoinTwo("Alice: 2回", "Bob: 1回");
  }

  lemma ExampleLines()
    ensures Join(RankingLines([("U1", 2), ("U2", 1)], map["U1" := "Alice", "U2" := "Bob"]))
      == "Alice: 2回\nBob: 1回"
  {
    ExampleLineList();
    ExampleJoin();
  }

  lemma ExampleRanking()
    ensures RankingReport(Counter(["U1", "U2"], map["U1" := 2, "U2" := 1]), map["U1" := "Alice", "U2" := "Bob"])
      == "Alice: 2回\nBob: 1回"
  {
    ExampleOrder();
    ExampleLines();
  }

  /**
   * The worked example end to end: the join event is not counted, the
   * empty display name falls through to the real name, and the report is
   * "Alice: 2回" and "Bob: 1回" on two lines.
   */
  lemma ExampleReport()
    ensures RankingReport(TallyOf(ExampleMessages()), GetUsernames(ExampleUsers())) == "Alice: 2回\nBob: 1回"
  {
    ExampleTally();
    ExampleDirectory();
    ExampleRanking();
  }

  /** A channel without counted messages gives an empty ranking, whatever the directory. */
  lemma EmptyRanking(msgs: seq<Message>, userMap: map<UserId, string>)
    requires forall i :: 0 <= i < |msgs| ==> !Counted(msgs[i])
    ensures RankingReport(TallyOf(msgs), userMap) == ""
  {
    if |msgs| > 0 {
      EmptyRanking(msgs[..|msgs| - 1], userMap);
    }
  }
}
