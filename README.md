# slack-post-ranker, modelled in Dafny

The script collects a channel's recent messages through the paginated
`conversations.history` endpoint, counts the ordinary posts per author,
resolves author ids to names through `users.list`, and renders a ranking
with one line `"<name>: <count>回"` per author. This project models that
deterministic core and proves what it promises:

- `slack_api.dfy` (`SlackApi`): the response fields the script reads: messages, history pages, history request parameters, members and the user list. An optional key read with `dict.get` is `None` when missing or null. The `user` key of a message is tested with `in`, so for it `None` means only that the key is absent.
- `history.dfy` (`History`): `fetch_all_messages` as an imperative loop. The endpoint is a sequence of page responses, one per request. The method returns the collected messages and the parameters of every request it issued.
- `tally.dfy` (`Tally`): `count_messages_by_user` as a loop over a `Counter`. A `Counter` is a mapping plus its key insertion order. `TallyOf` is the specification function the loop meets. `Authors` and `CounterOf` give an independent description: the multiset and the first occurrences of the counted authors.
- `directory.dfy` (`Directory`): `get_usernames` as functions: the `or` fallback chain, the comprehension where the later duplicate wins, and the failure branch.
- `ranking.dfy` (`Ranking`): `Counter.most_common()` as a stable sort, descending by count, with its sortedness, permutation and stability proved. `format_ranking` is a loop that builds the lines, which are then joined with `"\n"`. `ParseLine` and `Text.Split` exist only to state that the report reads back into its entries.
- `text.dfy` (`Text`): `"\n".join`, `str.split("\n")` and decimal rendering, with their round trips.
- `summary.dfy` (`Summary`): the data flow of `main` (fetch, directory, tally, ranking after a header) and the worked example.

The model follows the code on two points:
- No message is excluded for being bot-originated. Only a missing `user` key or a non-null `subtype` excludes it (main.py:57). `Tally.OnlyUserAndSubtypeMatter` proves that a bot marker cannot change the tally.
- The source sleeps after every successful page, not only when more pages follow (main.py:34). The sleep itself is not modelled.

Ties in the ranking keep the Counter's insertion order, which is the order in which each author's first counted message appears. `Ranking.MostCommon` states this as: for every count `n`, the entries with count `n` appear in the same order as in the Counter.

## Model

| member | source | states |
|---|---|---|
| History.StopIndex | main.py:16-32 | the loop's last request is the first response that failed or has `has_more` false; every earlier response was ok with more pages |
| History.StopIndexUnique | main.py:16-32 | that stopping index is unique: both directions of its characterisation |
| History.CursorParam | main.py:22-23 | `if cursor:`: a cursor is sent exactly when it is present and non-empty, and then unchanged |
| History.RequestCursor | main.py:12-33 | the first request has no cursor; a later request carries a cursor only when the previous page's `next_cursor` is non-empty, and then that exact value |
| History.FetchAllMessages | main.py:7-36 | exactly StopIndex+1 requests, all with the channel, limit 300 and the oldest timestamp; the first has no cursor, and request i+1 carries page i's cursor exactly when it is non-empty; the result is all pages' messages in order, with the final page included only when its `ok` is true |
| History.FetchedMessagesOkPages | main.py:27-31 | the collected messages are the in-order concatenation of the successful pages up to the stop, and of nothing else |
| Tally.CountMessagesByUser | main.py:54-59 | the loop's Counter is `TallyOf(messages)`; it is valid; its keys are exactly the authors of counted messages; each count is that author's number of counted messages, at least 1 |
| Tally.Counter.Increment | main.py:58 | `counter[k] += 1`: k's count becomes its old count (0 if missing) plus 1, every other count is unchanged, a new key goes to the end of the order and an existing one keeps its place, and validity is kept |
| Tally.TallyOfAuthors | main.py:55-58 | the Counter depends on the messages only through the sequence of counted authors |
| Tally.TallyProperties | main.py:54-59 | keys are exactly the counted authors, each count is ≥ 1 and equals its occurrences, keys come in the order of each author's first counted message, and the counts sum to the number of counted messages |
| Tally.UncountedIgnored | main.py:57 | a message with no `user` or with a `subtype` changes no count and no order, wherever it stands in the list |
| Tally.OnlyUserAndSubtypeMatter | main.py:57 | lists that agree on `user` and `subtype` give the same Counter: bot markers and text are not consulted |
| Directory.NameMap | main.py:47-52 | the comprehension's keys are exactly the member ids; each id maps to the name of the last member with that id |
| Directory.GetUsernames | main.py:38-52 | a failed response gives the empty map; otherwise the keys are the member ids and, for each id, the last member with that id supplies its name |
| Directory.Name | main.py:48-50 | the `or` chain: a non-empty display name always wins; otherwise the result is the non-empty real name or the id; it is empty only when the id is |
| Directory.NameFallback | main.py:48-50 | a name is the display name if non-empty, else the real name if non-empty, else the id; missing, null and empty all fall through |
| Ranking.MostCommon | main.py:63 | `most_common()` is a permutation of the items, its counts never increase, and for each count the entries keep their insertion order (stable) |
| Ranking.InsertWithCount | main.py:63 | inserting an entry into a descending sequence places it ahead of the entries with the same count, and in the same order otherwise |
| Ranking.Items | main.py:63 | `counter.items()`: one pair per key of the order, in insertion order, pairing each key with its count |
| Ranking.Resolve | main.py:64 | `user_map.get(user_id, user_id)`: the mapped name when the id is a key, else the raw id |
| Ranking.FormatLine | main.py:65 | the f-string line `"<name>: <count>回"`; it holds a newline only if the name does (its read-back is Ranking.ParseFormatLine) |
| Ranking.FormatRanking | main.py:61-66 | the loop's output is the newline join of one formatted line per ranked entry; the report is empty exactly when the Counter's order is empty, and for a valid Counter exactly when its mapping is empty |
| Ranking.RankingEntries | main.py:63-65 | the ranking has one entry per Counter key, each entry's count is that key's tally, counts never increase down the list, and equal counts keep first-seen order |
| Ranking.ReportLines | main.py:62-66 | with newline-free names, splitting the report on "\n" gives one line per entry; each line reads back as `user_map[id]` when present, else the raw id, and the entry's count. An empty Counter gives "" |
| Ranking.ParseFormatLine | main.py:65 | a line `"<name>: <count>回"` reads back as its name and count, for any name |
| Text.SplitJoin | main.py:66 | splitting a newline join of newline-free lines gives back the lines, with no trailing separator |
| Text.Join | main.py:66 | `"\n".join(lines)`: no lines give ""; otherwise the text starts with the first line and ends with the last, so there is no trailing newline |
| Text.NatToString | main.py:65 | the count in the f-string: at least one decimal digit and no newline (its read-back is Text.ParseNatToString) |
| Text.ParseNatToString | main.py:65 | the decimal rendering of a count reads back as that count |
| Summary.BuildSummary | main.py:98-109 | the summary is the header followed by the ranking of the fetched messages under the loaded directory; nothing follows the header exactly when no fetched message is counted |
| Summary.ExampleReport | main.py:54-66 | worked example: U1, U1, U2 and a `channel_join` from U1, with U1's display name "Alice" and U2's real name "Bob" behind an empty display name, give "Alice: 2回\nBob: 1回" |
| Summary.EmptyRanking | main.py:61-66 | with no counted message the ranking text is empty, whatever the directory |

## Left out

- HTTP requests and JSON decoding (main.py:25, 41, 79) are not modelled. The endpoints are given as values: a sequence of page responses and one user-list response.
- `post_to_slack` (main.py:68-84) is not modelled: it is an HTTP call plus console output.
- The clock is not modelled. `oldest_ts` (main.py:14) is a parameter. The one-second `time.sleep` after each successful page (main.py:34) has no observable effect on the result.
- The date-range header built with `datetime`/`strftime` (main.py:104-108) is an opaque string parameter of `Summary.BuildSummary`.
- `argparse`, `main` and the process entry point (main.py:86-114) are not modelled: they are CLI plumbing.
- The `print` diagnostics (main.py:28, 44, 82, 84, 97, 99) are not modelled: they are console output.
- History.FetchAllMessages: requires that some response in the sequence ends the pagination (a failure, or `has_more` false). Against an endpoint that reports more pages forever, the source loops forever and the model has nothing to say.
- `ok` and `has_more` are booleans in the model. The source tests JSON truthiness, so a non-boolean value would behave like the matching boolean.
- A `user` key holding JSON null, or a non-string, is not modelled: `user` is an optional string. A Counter key `None` is therefore not representable.
- A member without an `id` raises `KeyError` in the source (main.py:48, 50). The model gives every member an id.
- Four null values make the source raise, and the model cannot represent them: `messages: null` (TypeError in `extend`, main.py:31), `response_metadata: null` (AttributeError, main.py:33), `profile: null` (AttributeError, main.py:48-49) and `members: null` (TypeError when the comprehension iterates it, main.py:51). In the model these fields are always a list or a record; a missing `messages`, `members` or `profile` reads as its default.
- Directory.NameFallback: display and real names are strings or missing/null. Other JSON values with their own truthiness are not modelled.
