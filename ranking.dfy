/**
 * `format_ranking`: `Counter.most_common()` followed by one report line
 * `"<name>: <count>回"` per entry, joined with newlines.
 */
module Ranking {
  import opened SlackApi
  import opened Text
  import opened Tally

  /** One `(user_id, count)` pair of `most_common()`. */
  type Entry = (UserId, nat)

  /** The literal unit after each count ("times"). */
  const COUNT_UNIT: char := '回'

  /** `counter.items()`: the pairs in insertion order. */
  function Items(c: Counter): (items: seq<Entry>)
    ensures |items| == |c.order|
    ensures forall i :: 0 <= i < |items| ==> items[i] == (c.order[i], Lookup(c.counts, c.order[i]))
  {
    seq(|c.order|, i requires 0 <= i < |c.order| => (c.order[i], Lookup(c.counts, c.order[i])))
  }

  predicate NonIncreasing(s: seq<Entry>)
  {
    forall i, j :: 0 <= i < j < |s| ==> s[i].1 >= s[j].1
  }

  /** The entries of `s` whose count is `n`, in their order in `s`. */
  function WithCount(s: seq<Entry>, n: nat): seq<Entry>
  {
    if |s| == 0 then [] else (if s[0].1 == n then [s[0]] else []) + WithCount(s[1..], n)
  }

  /** Puts `e` before the first entry whose count is not larger than its own. */
  function Insert(e: Entry, s: seq<Entry>): seq<Entry>
  {
    if |s| == 0 || s[0].1 <= e.1 then [e] + s else [s[0]] + Insert(e, s[1..])
  }

  lemma {:induction false} InsertMultiset(e: Entry, s: seq<Entry>)
    ensures multiset(Insert(e, s)) == multiset(s) + multiset{e}
  {
    if |s| > 0 && s[0].1 > e.1 {
      InsertMultiset(e, s[1..]);
      assert s == [s[0]] + s[1..];
    }
  }

  lemma {:induction false} InsertNonIncreasing(e: Entry, s: seq<Entry>)
    requires NonIncreasing(s)
    ensures NonIncreasing(Insert(e, s))
  {
    if |s| > 0 && s[0].1 > e.1 {
      var r := Insert(e, s);
      InsertNonIncreasing(e, s[1..]);
      InsertMultiset(e, s[1..]);
      forall j | 0 < j < |r| ensures r[0].1 >= r[j].1 {
        assert r[j] in multiset(s[1..]) + multiset{e};
        if r[j] != e {
          assert r[j] in s[1..];
        }
      }
    }
  }

  lemma WithCountCons(x: Entry, t: seq<Entry>, n: nat)
    ensures WithCount([x] + t, n) == (if x.1 == n then [x] else []) + WithCount(t, n)
  {
    assert ([x] + t)[0] == x;
    assert ([x] + t)[1..] == t;
  }

  /** Inserting into a non-increasing sequence keeps the order among equal counts, `e` first. */
  lemma {:induction false} InsertWithCount(e: Entry, s: seq<Entry>, n: nat)
    requires NonIncreasing(s)
    ensures WithCount(Insert(e, s), n) == (if e.1 == n then [e] else []) + WithCount(s, n)
  {
    if |s| == 0 || s[0].1 <= e.1 {
      WithCountCons(e, s, n);
    } else {
      var x, t := s[0], s[1..];
      assert s == [x] + t;
      InsertWithCount(e, t, n);
      WithCountCons(x, Insert(e, t), n);
      WithCountCons(x, t, n);
      var ex: seq<Entry> := if e.1 == n then [e] else [];
      var xx: seq<Entry> := if x.1 == n then [x] else [];
      assert xx == [] || ex == [];
      assert WithCount(Insert(e, s), n) == xx + (ex + WithCount(t, n));
      assert xx + (ex + WithCount(t, n)) == ex + (xx + WithCount(t, n));
    }
  }

  /**
   * `Counter.most_common()`: `sorted(items, key=count, reverse=True)`,
   * which is stable, so entries of equal count keep their insertion order.
   */
  function MostCommon(items: seq<Entry>): (r: seq<Entry>)
    ensures multiset(r) == multiset(items)
    ensures NonIncreasing(r)
    ensures forall n :: WithCount(r, n) == WithCount(items, n)
  {
    if |items| == 0 then []
    else
      var rest := MostCommon(items[1..]);
      InsertMultiset(items[0], rest);
      InsertNonIncreasing(items[0], rest);
      assert items == [items[0]] + items[1..];
      assert forall n :: WithCount(Insert(items[0], rest), n) == WithCount(items, n) by {
        forall n ensures WithCount(Insert(items[0], rest), n) == WithCount(items, n) {
          InsertWithCount(items[0], rest, n);
          WithCountCons(items[0], items[1..], n);
        }
      }
      Insert(items[0], rest)
  }

  /** `user_map.get(user_id, user_id)`. */
  function Resolve(userMap: map<UserId, string>, id: UserId): (name: string)
    ensures id in userMap ==> name == userMap[id]
    ensures id !in userMap ==> name == id
  {
    if id in userMap then userMap[id] else id
  }

  /** `f"{name}: {count}回"`: it holds a newline only if the name does. */
  function FormatLine(name: string, count: nat): (line: string)
    ensures '\n' !in name ==> '\n' !in line
  {
    var digits := NatToString(count);
    var line := name + ": " + digits + [COUNT_UNIT];
    assert '\n' !in name ==> '\n' !in line by {
      if '\n' !in name {
        forall i | 0 <= i < |line| ensures line[i] != '\n' {
          if i < |name| {
            assert line[i] == name[i];
          } else if i >= |name| + 2 && i < |line| - 1 {
            assert line[i] == digits[i - |name| - 2];
          }
        }
      }
    }
    line
  }

  /** The report lines for the given ranking, one per entry. */
  function RankingLines(entries: seq<Entry>, userMap: map<UserId, string>): (lines: seq<string>)
    ensures |lines| == |entries|
    ensures forall i :: 0 <= i < |entries| ==> lines[i] == FormatLine(Resolve(userMap, entries[i].0), entries[i].1)
  {
    seq(|entries|, i requires 0 <= i < |entries| => FormatLine(Resolve(userMap, entries[i].0), entries[i].1))
  }

  /** The text `format_ranking(c, userMap)` returns. */
  function RankingReport(c: Counter, userMap: map<UserId, string>): string
  {
    Join(RankingLines(MostCommon(Items(c)), userMap))
  }

  method FormatRanking(counts: Counter, userMap: map<UserId, string>) returns (report: string)
    ensures report == RankingReport(counts, userMap)
    ensures report == "" <==> |counts.order| == 0
    ensures counts.Valid() ==> (report == "" <==> counts.counts == map[])
  {
    var entries := MostCommon(Items(counts));
    var lines: seq<string> := [];
    for i := 0 to |entries|
      invariant |lines| == i
      invariant forall k :: 0 <= k < i ==> lines[k] == FormatLine(Resolve(userMap, entries[k].0), entries[k].1)
    {
      var (userId, count) := entries[i];
      var name := if userId in userMap then userMap[userId] else userId;
      lines := lines + [name + ": " + NatToString(count) + "回"];
    }
    assert lines == RankingLines(entries, userMap);
    report := Join(lines);
    JoinEmpty(lines);
    if counts.Valid() && |counts.order| > 0 {
      assert counts.order[0] in counts.counts;
    }
  }

  /** Reads a report line back into its name and count. */
  function ParseLine(line: string): Option<(string, nat)>
  {
    if |line| == 0 || line[|line| - 1] != COUNT_UNIT then None
    else
      var body := line[..|line| - 1];
      var digits := TrailingDigits(body);
      var head := body[..|body| - |digits|];
      if |digits| == 0 || |head| < 2 || head[|head| - 2..] != ": " then None
      else Some((head[..|head| - 2], ParseNat(digits)))
  }

  /** A formatted line reads back as its name and count, whatever the name. */
  lemma ParseFormatLine(name: string, count: nat)
    ensures ParseLine(FormatLine(name, count)) == Some((name, count))
  {
    var digits := NatToString(count);
    var p := name + ": ";
    var line := FormatLine(name, count);
    assert line == (p + digits) + [COUNT_UNIT];
    assert line[|line| - 1] == COUNT_UNIT;
    var body := line[..|line| - 1];
    assert body == p + digits;
    assert p[|p| - 1] == ' ';
    TrailingDigitsAfter(p, digits);
    var head := body[..|body| - |digits|];
    assert head == p;
    assert head[|head| - 2..] == ": ";
    assert head[..|head| - 2] == name;
    ParseNatToString(count);
  }

  /**
   * The ranking of a valid Counter has one entry per key, carrying that
   * key's count; counts do not increase down the ranking; and entries of
   * equal count appear in the Counter's insertion order.
   */
  lemma RankingEntries(c: Counter)
    requires c.Valid()
    ensures var e := MostCommon(Items(c));
      && |e| == |c.order|
      && (forall i :: 0 <= i < |e| ==> e[i].0 in c.counts && e[i].1 == c.counts[e[i].0])
      && (forall k :: k in c.counts ==> exists i :: 0 <= i < |e| && e[i].0 == k)
      && (forall i, j :: 0 <= i < j < |e| ==> e[i].1 >= e[j].1)
      && (forall n :: WithCount(e, n) == WithCount(Items(c), n))
  {
    var items := Items(c);
    var e := MostCommon(items);
    assert |e| == |items| by {
      assert |multiset(e)| == |multiset(items)|;
    }
    forall i | 0 <= i < |e| ensures e[i].0 in c.counts && e[i].1 == c.counts[e[i].0] {
      assert e[i] in multiset(items);
    }
    forall k | k in c.counts ensures exists i :: 0 <= i < |e| && e[i].0 == k {
      var j :| 0 <= j < |c.order| && c.order[j] == k;
      assert items[j] in multiset(e);
    }
  }

  /**
   * When no name and no raw id holds a newline, splitting the report on
   * newlines gives one line per ranking entry, and each line reads back as
   * the resolved name and the entry's count. An empty Counter gives "".
   */
  lemma ReportLines(c: Counter, userMap: map<UserId, string>)
    requires forall k :: k in userMap ==> '\n' !in userMap[k]
    requires forall i :: 0 <= i < |c.order| ==> '\n' !in c.order[i]
    ensures |c.order| == 0 ==> RankingReport(c, userMap) == ""
    ensures |c.order| > 0 ==>
      var e, lines := MostCommon(Items(c)), Split(RankingReport(c, userMap));
      && |lines| == |e|
      && forall i :: 0 <= i < |e| ==> ParseLine(lines[i]) == Some((Resolve(userMap, e[i].0), e[i].1))
  {
    var e := MostCommon(Items(c));
    var lines := RankingLines(e, userMap);
    forall i | 0 <= i < |e| ensures '\n' !in lines[i] && ParseLine(lines[i]) == Some((Resolve(userMap, e[i].0), e[i].1)) {
      assert e[i] in multiset(Items(c));
      var name := Resolve(userMap, e[i].0);
      assert '\n' !in name;
      ParseFormatLine(name, e[i].1);
    }
    if |e| > 0 {
      SplitJoin(lines);
    }
  }
}
