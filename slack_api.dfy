/**
 * The parts of the messaging platform's JSON responses that the ranking
 * script reads. An optional key read through `dict.get` is an `Option`:
 * `None` stands for a missing key and for JSON null alike, as `dict.get`
 * returns `None` for both. The `user` key of a message is the exception:
 * it is tested with `in`, and there `None` means only that the key is
 * absent.
 */
module SlackApi {

  datatype Option<+T> = None | Some(value: T)

  type UserId = string

  /** One element of the `messages` list of `conversations.history`. */
  datatype Message = Message(
    user: Option<UserId>,     // the `user` key; None when the key is absent
    subtype: Option<string>,  // `subtype`; None when absent or null
    botId: Option<string>,    // `bot_id`: carried, but never read by the script
    text: string)

  /**
   * One `conversations.history` response: `ok`, `messages` (missing reads
   * as []), `has_more` (missing reads as false) and
   * `response_metadata.next_cursor` (missing or null reads as None).
   */
  datatype PageResponse = PageResponse(
    ok: bool,
    messages: seq<Message>,
    hasMore: bool,
    nextCursor: Option<string>)

  /** The query parameters of one `conversations.history` request. */
  datatype HistoryRequest = HistoryRequest(
    channel: string,
    limit: nat,
    oldest: int,
    cursor: Option<string>)  // None: no `cursor` parameter is sent

  /** `profile` of a member; a missing profile reads as Profile(None, None). */
  datatype Profile = Profile(displayName: Option<string>, realName: Option<string>)

  /** One element of `members` in a `users.list` response. */
  datatype Member = Member(id: UserId, profile: Profile)

  /** A `users.list` response: `ok` and `members` (missing reads as []). */
  datatype UserListResponse = UserListResponse(ok: bool, members: seq<Member>)
}
