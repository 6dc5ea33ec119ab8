/**
 * `fetch_all_messages`: the cursor-driven pagination loop over
 * `conversations.history`. The remote endpoint is a sequence of page
 * responses, `pages[i]` being the answer to the i-th request; the method
 * returns, beside the collected messages, the parameters of every request
 * it issued.
 */
module History {
  import opened SlackApi

  /** The page size the script asks for. */
  const PAGE_LIMIT: nat := 300

  /** A response after which the loop issues no further request. */
  predicate Final(p: PageResponse) { !p.ok || !p.hasMore }

  /** The endpoint ends the pagination within the responses given. */
  predicate Terminates(pages: seq<PageResponse>)
  {
    exists k :: 0 <= k < |pages| && Final(pages[k])
  }

  /** Index of the first final response: the last request the loop issues. */
  function StopIndex(pages: seq<PageResponse>): (k: nat)
    requires Terminates(pages)
    ensures k < |pages| && Final(pages[k])
    ensures forall j :: 0 <= j < k ==> !Final(pages[j])
  {
    if Final(pages[0]) then 0
    else
      assert Terminates(pages[1..]) by {
        var k :| 0 <= k < |pages| && Final(pages[k]);
        assert Final(pages[1..][k - 1]);
      }
      1 + StopIndex(pages[1..])
  }

  /** The first final response is the only index with the StopIndex properties. */
  lemma StopIndexUnique(pages: seq<PageResponse>, k: nat)
    requires Terminates(pages)
    ensures StopIndex(pages) == k <==>
      (k < |pages| && Final(pages[k]) && forall j :: 0 <= j < k ==> !Final(pages[j]))
  {
  }

  /** `if cursor:` in the request builder: only a non-empty cursor is sent. */
  function CursorParam(cursor: Option<string>): (sent: Option<string>)
    ensures sent.Some? <==> cursor.Some? && cursor.value != ""
    ensures sent.Some? ==> sent == cursor
  {
    if cursor.Some? && cursor.value != "" then cursor else None
  }

  /** The messages of the given responses, in order. */
  function Concat(pages: seq<PageResponse>): seq<Message>
  {
    if |pages| == 0 then [] else Concat(pages[..|pages| - 1]) + pages[|pages| - 1].messages
  }

  /** The cursor parameter of request i: none on the first request, else the previous page's cursor when truthy. */
  function RequestCursor(pages: seq<PageResponse>, i: nat): (sent: Option<string>)
    requires i <= |pages|
    ensures i == 0 ==> sent == None
    ensures sent.Some? ==> i > 0 && sent == pages[i - 1].nextCursor && sent.value != ""
    ensures i > 0 && pages[i - 1].nextCursor.Some? && pages[i - 1].nextCursor.value != "" ==> sent.Some?
  {
    if i == 0 then None else CursorParam(pages[i - 1].nextCursor)
  }

  /** What `fetch_all_messages` returns for the given endpoint. */
  function FetchedMessages(pages: seq<PageResponse>): seq<Message>
    requires Terminates(pages)
  {
    var s := StopIndex(pages);
    if pages[s].ok then Concat(pages[..s + 1]) else Concat(pages[..s])
  }

  method FetchAllMessages(channelId: string, oldest: int, pages: seq<PageResponse>)
    returns (messages: seq<Message>, requests: seq<HistoryRequest>)
    requires Terminates(pages)
    ensures |requests| == StopIndex(pages) + 1
    ensures forall i :: 0 <= i < |requests| ==>
      requests[i] == HistoryRequest(channelId, PAGE_LIMIT, oldest, RequestCursor(pages, i))
    ensures forall j :: 0 <= j < StopIndex(pages) ==> pages[j].ok && pages[j].hasMore
    ensures pages[StopIndex(pages)].ok ==> messages == Concat(pages[..StopIndex(pages) + 1])
    ensures !pages[StopIndex(pages)].ok ==> messages == Concat(pages[..StopIndex(pages)])
    ensures messages == FetchedMessages(pages)
  {
    ghost var s := StopIndex(pages);
    messages := [];
    requests := [];
    var hasMore := true;
    var cursor: Option<string> := None;
    var i := 0;
    while hasMore
      invariant if hasMore then i <= s else i == s + 1 && pages[s].ok
      invariant messages == Concat(pages[..i])
      invariant cursor == if i == 0 then None else pages[i - 1].nextCursor
      invariant |requests| == i
      invariant forall j :: 0 <= j < i ==>
        requests[j] == HistoryRequest(channelId, PAGE_LIMIT, oldest, RequestCursor(pages, j))
      decreases s + 1 - i
    {
      var param := if cursor.Some? && cursor.value != "" then cursor else None;
      var res := pages[i];
      requests := requests + [HistoryRequest(channelId, PAGE_LIMIT, oldest, param)];
      if !res.ok {
        assert i == s;
        break;
      }
      assert pages[..i + 1][..i] == pages[..i];
      messages := messages + res.messages;
      hasMore := res.hasMore;
      cursor := res.nextCursor;
      i := i + 1;
    }
  }

  /** FetchedMessages is the concatenation of the successful pages only. */
  lemma FetchedMessagesOkPages(pages: seq<PageResponse>)
    requires Terminates(pages)
    ensures FetchedMessages(pages) == Concat(OkPages(pages[..StopIndex(pages) + 1]))
  {
    var s := StopIndex(pages);
    assert forall i :: 0 <= i < s ==> !Final(pages[i]);
    assert forall i :: 0 <= i < s ==> pages[..s][i].ok;
    OkPagesAllOk(pages[..s]);
    assert pages[..s + 1] == pages[..s] + [pages[s]];
    OkPagesSnoc(pages[..s], pages[s]);
    if pages[s].ok {
      assert OkPages(pages[..s + 1]) == pages[..s + 1];
    } else {
      assert OkPages(pages[..s + 1]) == pages[..s];
    }
  }

  /** The successful responses among the given ones, in order. */
  function OkPages(pages: seq<PageResponse>): (r: seq<PageResponse>)
    ensures forall i :: 0 <= i < |r| ==> r[i].ok
  {
    if |pages| == 0 then [] else (if pages[0].ok then [pages[0]] else []) + OkPages(pages[1..])
  }

  lemma {:induction false} OkPagesAllOk(pages: seq<PageResponse>)
    requires forall i :: 0 <= i < |pages| ==> pages[i].ok
    ensures OkPages(pages) == pages
  {
    if |pages| > 0 {
      OkPagesAllOk(pages[1..]);
    }
  }

  lemma {:induction false} OkPagesSnoc(pages: seq<PageResponse>, p: PageResponse)
    ensures OkPages(pages + [p]) == OkPages(pages) + (if p.ok then [p] else [])
  {
    if |pages| > 0 {
      assert (pages + [p])[1..] == pages[1..] + [p];
      OkPagesSnoc(pages[1..], p);
    } else {
      assert pages + [p] == [p];
    }
  }
}
